/** The reaction counter of lib/tgspam/reaction.go: a fixed window per user, held in a cache
    with a time limit, and what its flags guarantee about whole runs of reactions. */
module Reactions {
  import opened Seqs

  datatype ReactionHistory = ReactionHistory(count: int, firstSeen: Option<int>)

  datatype CacheItem = CacheItem(value: ReactionHistory, expiresAt: int)

  datatype Response = Disabled | Spam(count: int, elapsed: int) | NotYet(count: int)

  const EMPTY := ReactionHistory(0, None)

  /** The counter after one more reaction at `now`. */
  function React(h: ReactionHistory, now: int, window: int): ReactionHistory {
    if h.firstSeen.Some? && now <= h.firstSeen.value + window then ReactionHistory(h.count + 1, h.firstSeen)
    else if h.firstSeen.Some? then ReactionHistory(1, Some(now))
    else ReactionHistory(h.count + 1, Some(now))
  }

  /** The counter of a user who reacted at these times, with no cache in between. */
  function Run(times: seq<int>, window: int): ReactionHistory {
    if times == [] then EMPTY else React(Run(Init(times), window), Last(times), window)
  }

  /** Whether the last of these reactions is flagged. */
  predicate Flagged(times: seq<int>, threshold: int, window: int) {
    Run(times, window).count >= threshold
  }

  /** Whether reaction `k` of a run is flagged. */
  predicate FlaggedAt(times: seq<int>, k: nat, threshold: int, window: int)
    requires k < |times|
  {
    Flagged(times[..k + 1], threshold, window)
  }

  ghost predicate Ordered(times: seq<int>) {
    forall i, j :: 0 <= i <= j < |times| ==> times[i] <= times[j]
  }

  // ---- runs ----

  lemma RunAppend(times: seq<int>, t: int, window: int)
    ensures Run(times + [t], window) == React(Run(times, window), t, window)
  {
    InitLast(times, [t]);
    assert times + Init([t]) == times;
  }

  lemma NeverSeen(times: seq<int>, window: int)
    ensures Run(times, window).firstSeen == None <==> Run(times, window) == EMPTY
  {
  }

  /** The counter counts the reactions since some one of them, all within a window of it. */
  lemma {:induction false} CountsSince(times: seq<int>, window: int) returns (start: nat)
    requires window > 0 && times != [] && Ordered(times)
    ensures start < |times|
    ensures Run(times, window) == ReactionHistory(|times| - start, Some(times[start]))
    ensures Last(times) <= times[start] + window
  {
    var init := Init(times);
    if init == [] {
      assert Run(init, window) == EMPTY;
      start := 0;
    } else {
      start := CountsSince(init, window);
      if Last(times) > times[start] + window {
        start := |times| - 1;
      }
    }
  }

  /** That one is the first reaction after the end of the window before, if there was one. */
  lemma {:induction false} WindowStarts(times: seq<int>, window: int, start: nat)
    requires window > 0 && Ordered(times) && 0 < start < |times|
    requires Run(times, window) == ReactionHistory(|times| - start, Some(times[start]))
    ensures var before := Run(times[..start], window);
      before.firstSeen.Some? && times[start - 1] <= before.firstSeen.value + window < times[start]
    decreases |times|
  {
    var init := Init(times);
    var s := CountsSince(init, window);
    if start == |times| - 1 {
      assert times[..start] == init;
    } else {
      assert init[..start] == times[..start];
      WindowStarts(init, window, start);
    }
  }

  /** A flag is justified: the user made at least `threshold` reactions within one span of
      length `window` that ends with the flagged one. */
  lemma FlagIsJustified(times: seq<int>, threshold: int, window: int)
    requires window > 0 && threshold > 0 && times != [] && Ordered(times) && Flagged(times, threshold, window)
    ensures |times| >= threshold && times[|times| - threshold] >= Last(times) - window
  {
    var start := CountsSince(times, window);
    assert start <= |times| - threshold;
  }

  /** As long as the window that held at reaction `i` lasts, every reaction is counted in it. */
  lemma {:induction false} CountsOn(times: seq<int>, i: nat, k: nat, window: int)
    requires window > 0 && Ordered(times) && i <= k < |times|
    requires var h := Run(times[..i + 1], window); h.firstSeen.Some? && times[k] <= h.firstSeen.value + window
    ensures Run(times[..k + 1], window) ==
      ReactionHistory(Run(times[..i + 1], window).count + k - i, Run(times[..i + 1], window).firstSeen)
    decreases k
  {
    if k > i {
      CountsOn(times, i, k - 1, window);
      assert times[..k + 1] == times[..k] + [times[k]];
      RunAppend(times[..k], times[k], window);
    }
  }

  /** The first reaction after that window starts a new one. */
  lemma {:induction false} FirstReset(times: seq<int>, i: nat, k: nat, window: int) returns (r: nat)
    requires window > 0 && Ordered(times) && i < k < |times|
    requires var h := Run(times[..i + 1], window);
      h.firstSeen.Some? && times[i] <= h.firstSeen.value + window < times[k]
    ensures i < r <= k && times[r - 1] <= Run(times[..i + 1], window).firstSeen.value + window
    ensures Run(times[..r + 1], window) == ReactionHistory(1, Some(times[r]))
    decreases k
  {
    var limit := Run(times[..i + 1], window).firstSeen.value + window;
    if times[k - 1] > limit {
      r := FirstReset(times, i, k - 1, window);
    } else {
      r := k;
      CountsOn(times, i, k - 1, window);
      assert times[..k + 1] == times[..k] + [times[k]];
      RunAppend(times[..k], times[k], window);
    }
  }

  /** How many reactions within one window always include a flagged one. */
  function Enough(threshold: int): int {
    if threshold <= 1 then 1 else 2 * threshold - 2
  }

  /** Conversely, among any `2 * threshold - 2` reactions within a span of length `window`
      (one, for threshold 1) some reaction is flagged. */
  lemma BurstIsFlagged(times: seq<int>, i: nat, threshold: int, window: int) returns (k: nat)
    requires window > 0 && threshold > 0 && Ordered(times)
    requires i + Enough(threshold) <= |times| && times[i + Enough(threshold) - 1] - times[i] <= window
    ensures i <= k < i + Enough(threshold) && FlaggedAt(times, k, threshold, window)
  {
    var here := times[..i + 1];
    var start := CountsSince(here, window);
    var count, limit := |here| - start, here[start] + window;
    var last := i + Enough(threshold) - 1;
    if threshold == 1 {
      k := i;
    } else if times[i + threshold - 1] <= limit {
      k := i + threshold - 1;
      CountsOn(times, i, k, window);
    } else {
      var r := FirstReset(times, i, i + threshold - 1, window);
      assert times[i + threshold - 1] <= times[last];
      assert count >= 2;
      if r == i + threshold - 1 {
        k := r - 1;
        CountsOn(times, i, k, window);
      } else {
        k := last;
        assert times[i] <= times[r];
        CountsOn(times, r, k, window);
      }
    }
  }

  // ---- the bound is sharp ----

  function Repeat(t: int, n: nat): (s: seq<int>)
    ensures |s| == n && forall i :: 0 <= i < n ==> s[i] == t
  {
    seq(n, _ => t)
  }

  lemma {:induction false} RepeatCounts(times: seq<int>, t: int, n: nat, window: int)
    requires var h := Run(times, window); h.firstSeen.Some? && t <= h.firstSeen.value + window
    ensures Run(times + Repeat(t, n), window) ==
      ReactionHistory(Run(times, window).count + n, Run(times, window).firstSeen)
  {
    if n == 0 {
      assert times + Repeat(t, 0) == times;
    } else {
      RepeatCounts(times, t, n - 1, window);
      assert times + Repeat(t, n) == (times + Repeat(t, n - 1)) + [t];
      RunAppend(times + Repeat(t, n - 1), t, window);
    }
  }

  /** For every threshold above one, one reaction fewer is not enough: this run flags nobody
      although its last `2 * threshold - 3` reactions fall into a span of length one. */
  function SlowBurst(threshold: int, window: int): seq<int>
    requires threshold >= 2
  {
    [0] + Repeat(window, threshold - 2) + Repeat(window + 1, threshold - 1)
  }

  lemma SlowBurstPrefix(threshold: int, window: int, k: nat)
    requires threshold >= 2 && window > 0 && k < |SlowBurst(threshold, window)|
    ensures Run(SlowBurst(threshold, window)[..k + 1], window).count < threshold
  {
    var s := SlowBurst(threshold, window);
    var one := [0];
    assert Run(one, window) == ReactionHistory(1, Some(0)) by {
      assert Init(one) == [];
    }
    if k < threshold - 1 {
      RepeatCounts(one, window, k, window);
      assert s[..k + 1] == one + Repeat(window, k);
    } else {
      var slow := one + Repeat(window, threshold - 2);
      RepeatCounts(one, window, threshold - 2, window);
      RunAppend(slow, window + 1, window);
      var renewed := slow + [window + 1];
      RepeatCounts(renewed, window + 1, k - (threshold - 1), window);
      assert s[..k + 1] == renewed + Repeat(window + 1, k - (threshold - 1));
    }
  }

  lemma EnoughIsLeast(threshold: int, window: int)
    requires threshold >= 2 && window > 0
    ensures var s := SlowBurst(threshold, window);
      && |s| == 1 + (Enough(threshold) - 1) && Ordered(s)
      && Last(s) - s[1] <= 1 <= window
      && forall k :: 0 <= k < |s| ==> !FlaggedAt(s, k, threshold, window)
  {
    var s := SlowBurst(threshold, window);
    forall k | 0 <= k < |s|
      ensures !FlaggedAt(s, k, threshold, window)
    {
      SlowBurstPrefix(threshold, window, k);
    }
  }

  // ---- the detector ----

  class ReactionDetector {
    const threshold: int
    const window: int
    var cache: map<int, CacheItem>

    ghost var times: map<int, seq<int>>  // per user, every reaction ever recorded
    ghost var clock: int                 // no operation came later than this

    constructor (threshold: int, window: int, ghost start: int)
      ensures Valid() && clock == start && times == map[]
      ensures this.threshold == threshold && this.window == window
    {
      this.threshold, this.window := threshold, window;
      cache, times, clock := map[], map[], start;
    }

    ghost function TimesOf(userID: int): seq<int>
      reads this`times
    {
      if userID in times then times[userID] else []
    }

    /** A stored counter is the counter of the whole run; a counter lost to the time limit had
        left its window. */
    ghost predicate Faithful(userID: int)
      reads this`cache, this`times, this`clock
    {
      var ideal := Run(TimesOf(userID), window);
      && (ideal.firstSeen.Some? ==> ideal.firstSeen.value <= clock)
      && (if userID in cache then
            && cache[userID].value == ideal
            && cache[userID].expiresAt - 2 * window <= clock
            && (ideal.firstSeen.Some? ==> ideal.firstSeen.value <= cache[userID].expiresAt - 2 * window)
          else ideal.firstSeen.Some? ==> clock > ideal.firstSeen.value + window)
    }

    ghost predicate Valid()
      reads this`cache, this`times, this`clock
    {
      window > 0 && threshold > 0 ==> forall u: int :: Faithful(u)
    }

    /** RecordReaction and check: one reaction of one user. The flag is that of the whole run. */
    method Record(userID: int, now: int) returns (r: Response)
      requires Valid() && clock <= now
      modifies this`cache, this`times, this`clock
      ensures Valid() && clock == now
      ensures if threshold <= 0 || window <= 0 then r == Disabled && times == old(times)
        else
          var log := old(TimesOf(userID)) + [now];
          var h := Run(log, window);
          && times == old(times)[userID := log]
          && h.firstSeen.Some?
          && r == if Flagged(log, threshold, window) then Spam(h.count, now - h.firstSeen.value) else NotYet(h.count)
    {
      hide Run;
      ghost var log := TimesOf(userID) + [now];
      RunAppend(TimesOf(userID), now, window);
      NeverSeen(TimesOf(userID), window);
      label before:
      clock := now;
      if threshold <= 0 || window <= 0 {
        return Disabled;
      }
      var h := if userID in cache then cache[userID].value else EMPTY;
      assert old@before(Faithful(userID));
      if h.firstSeen.Some? && now > h.firstSeen.value + window {
        h := EMPTY;
      }
      if h.firstSeen == None {
        h := h.(firstSeen := Some(now));
      }
      h := h.(count := h.count + 1);
      assert h == Run(log, window);
      cache := cache[userID := CacheItem(h, now + window * 2)];
      times := times[userID := log];
      forall u: int
        ensures Faithful(u)
      {
        assert old@before(Faithful(u));
      }
      return if h.count >= threshold then Spam(h.count, now - h.firstSeen.value) else NotYet(h.count);
    }

    /** The cache may drop a counter once `2 * window` has passed since it was stored: no later
        answer changes, since `Valid` still ties every later flag to the whole run. */
    method EvictExpired(userID: int, now: int)
      requires Valid() && clock <= now && userID in cache && now > cache[userID].expiresAt
      modifies this`cache, this`clock
      ensures Valid() && clock == now && cache == old(cache) - {userID}
    {
      label before:
      clock := now;
      cache := cache - {userID};
      if window > 0 && threshold > 0 {
        forall u: int
          ensures Faithful(u)
        {
          assert old@before(Faithful(u));
        }
      }
    }
  }
}
