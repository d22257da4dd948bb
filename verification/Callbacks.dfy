/** Inline-button payloads: how app/events prints them, parses them, picks a handler for them
    and finds the chat they came from, with the gid rules of app/config/settings.go. */
module Callbacks {
  import opened Seqs
  import opened Decimals

  // ---- gids and chats ----

  const MAX_GID_LENGTH: nat := 24

  predicate IsGIDChar(c: char) {
    'a' <= c <= 'z' || 'A' <= c <= 'Z' || '0' <= c <= '9' || c == '_' || c == '-'
  }

  /** gidPattern */
  predicate ValidGID(gid: string) {
    1 <= |gid| <= MAX_GID_LENGTH && forall i :: 0 <= i < |gid| ==> IsGIDChar(gid[i])
  }

  datatype ConfiguredChat = ConfiguredChat(group: string, gid: string)

  datatype GroupError = GroupRequired(at: nat) | InvalidGID(at: nat) | DuplicateGID(at: nat) | DuplicateGroup(at: nat)

  /** What ConfiguredChat.Validate accepts. */
  predicate ValidChat(c: ConfiguredChat) {
    c.group != "" && (c.gid != "" ==> ValidGID(c.gid))
  }

  /** ConfiguredChat.Validate for the entry at a position */
  method Validate(c: ConfiguredChat, at: nat) returns (err: Option<GroupError>)
    ensures err == None <==> ValidChat(c)
    ensures err == Some(GroupRequired(at)) <==> c.group == ""
  {
    if c.group == "" {
      return Some(GroupRequired(at));
    }
    if c.gid != "" && !ValidGID(c.gid) {
      return Some(InvalidGID(at));
    }
    return None;
  }

  function Fill(c: ConfiguredChat, instanceID: string): ConfiguredChat {
    if c.gid == "" then c.(gid := instanceID) else c
  }

  /** The groups with every empty gid replaced by the instance ID. */
  function FillAll(groups: seq<ConfiguredChat>, instanceID: string): (r: seq<ConfiguredChat>)
    ensures |r| == |groups| && forall i :: 0 <= i < |groups| ==> r[i] == Fill(groups[i], instanceID)
  {
    seq(|groups|, i requires 0 <= i < |groups| => Fill(groups[i], instanceID))
  }

  ghost predicate UniqueGIDs(groups: seq<ConfiguredChat>) {
    forall i, j :: 0 <= i < j < |groups| ==> groups[i].gid != groups[j].gid
  }

  ghost predicate UniqueGroups(groups: seq<ConfiguredChat>) {
    forall i, j :: 0 <= i < j < |groups| ==> groups[i].group != groups[j].group
  }

  /** What NormalizeGroups accepts, once empty gids are filled. */
  ghost predicate WellConfigured(groups: seq<ConfiguredChat>) {
    && (forall i :: 0 <= i < |groups| ==> ValidChat(groups[i]))
    && UniqueGIDs(groups) && UniqueGroups(groups)
  }

  class Settings {
    const instanceID: string
    var group: string
    var groups: seq<ConfiguredChat>

    constructor (instanceID: string, group: string, groups: seq<ConfiguredChat>)
      ensures this.instanceID == instanceID && this.group == group && this.groups == groups
    {
      this.instanceID, this.group, this.groups := instanceID, group, groups;
    }

    /** The group list the call starts from: the legacy single group when there is no list. */
    function Listed(): seq<ConfiguredChat>
      reads this
    {
      if |groups| == 0 && group != "" then [ConfiguredChat(group, instanceID)] else groups
    }

    /** NormalizeGroups: succeeds exactly when nothing is configured or the filled list is well
        configured; then the list is the filled one and the legacy group its first entry. A
        failing call may have filled some empty gids, and nothing else. */
    method NormalizeGroups() returns (err: Option<GroupError>)
      modifies this
      ensures err == None <==> WellConfigured(FillAll(old(Listed()), instanceID))
      ensures err == None ==> groups == FillAll(old(Listed()), instanceID)
      ensures err == None ==> group == if groups == [] then old(group) else groups[0].group
      ensures err != None ==> group == old(group) && FillAll(groups, instanceID) == FillAll(old(Listed()), instanceID)
    {
      if |groups| == 0 && group == "" {
        return None;
      }
      hide WellConfigured, ValidChat, GIDsOf, GroupsOf, Fill;
      ghost var filled := FillAll(Listed(), instanceID);
      if |groups| == 0 {
        groups := [ConfiguredChat(group, instanceID)];
      }
      var seenGID: set<string>, seenGroup: set<string> := {}, {};
      for i := 0 to |groups|
        invariant |groups| == |filled| && group == old(group)
        invariant FillAll(groups, instanceID) == filled
        invariant groups[..i] == filled[..i]
        invariant seenGID == GIDsOf(filled[..i]) && seenGroup == GroupsOf(filled[..i])
        invariant WellConfigured(filled[..i])
      {
        FillOne(groups, filled, i, instanceID);
        if groups[i].gid == "" {
          groups := groups[i := groups[i].(gid := instanceID)];
        }
        ConfiguredSoFar(filled, i);
        err := Validate(groups[i], i);
        if err.Some? {
          return;
        }
        if groups[i].gid in seenGID {
          return Some(DuplicateGID(i));
        }
        seenGID := seenGID + {groups[i].gid};
        if groups[i].group in seenGroup {
          return Some(DuplicateGroup(i));
        }
        seenGroup := seenGroup + {groups[i].group};
      }
      assert groups[..|groups|] == groups && filled[..|groups|] == filled;
      group := groups[0].group;
      return None;
    }
  }

  ghost function GIDsOf(groups: seq<ConfiguredChat>): set<string> {
    set i | 0 <= i < |groups| :: groups[i].gid
  }

  ghost function GroupsOf(groups: seq<ConfiguredChat>): set<string> {
    set i | 0 <= i < |groups| :: groups[i].group
  }

  /** Filling the next empty gid. */
  lemma FillOne(groups: seq<ConfiguredChat>, filled: seq<ConfiguredChat>, i: nat, instanceID: string)
    requires FillAll(groups, instanceID) == filled && i < |groups| && groups[..i] == filled[..i]
    ensures var next := if groups[i].gid == "" then groups[i := groups[i].(gid := instanceID)] else groups;
      FillAll(next, instanceID) == filled && next[i] == filled[i] && next[..i + 1] == filled[..i + 1]
  {
    var next := if groups[i].gid == "" then groups[i := groups[i].(gid := instanceID)] else groups;
    assert filled[i] == Fill(groups[i], instanceID) == next[i];
    assert next[..i + 1] == groups[..i] + [next[i]] && filled[..i + 1] == filled[..i] + [filled[i]];
    forall j | 0 <= j < |next|
      ensures Fill(next[j], instanceID) == filled[j]
    {
      assert filled[j] == Fill(groups[j], instanceID);
    }
  }

  /** One more entry is well configured when it is valid and repeats no gid and no group; a well
      configured list has only such entries. */
  lemma ConfiguredSoFar(groups: seq<ConfiguredChat>, i: nat)
    requires i < |groups| && WellConfigured(groups[..i])
    ensures WellConfigured(groups[..i + 1]) <==>
      ValidChat(groups[i]) && groups[i].gid !in GIDsOf(groups[..i]) && groups[i].group !in GroupsOf(groups[..i])
    ensures WellConfigured(groups) ==> WellConfigured(groups[..i + 1])
    ensures GIDsOf(groups[..i + 1]) == GIDsOf(groups[..i]) + {groups[i].gid}
    ensures GroupsOf(groups[..i + 1]) == GroupsOf(groups[..i]) + {groups[i].group}
  {
    var now, before := groups[..i + 1], groups[..i];
    assert now == before + [groups[i]];
    assert forall j :: 0 <= j < i ==> now[j] == before[j];
    assert now[i] == groups[i];
  }

  /** Idempotence: where one call succeeds, a second one does, too, and leaves what one call
      leaves. */
  method NormalizeTwice(s: Settings) returns (first: Option<GroupError>, second: Option<GroupError>)
    modifies s
    ensures first == None <==> WellConfigured(FillAll(old(s.Listed()), s.instanceID))
    ensures first == None ==> second == None && s.groups == FillAll(old(s.Listed()), s.instanceID)
    ensures first == None ==> s.group == if s.groups == [] then old(s.group) else s.groups[0].group
  {
    hide WellConfigured;
    first := s.NormalizeGroups();
    assert FillAll(s.groups, s.instanceID) == FillAll(old(s.Listed()), s.instanceID);
    second := s.NormalizeGroups();
  }

  /** A well configured list whose gids could all be filled has unique, valid, non-empty gids. */
  lemma ConfiguredGIDs(groups: seq<ConfiguredChat>, instanceID: string)
    requires WellConfigured(FillAll(groups, instanceID)) && instanceID != ""
    ensures UniqueGIDs(FillAll(groups, instanceID))
    ensures forall i :: 0 <= i < |groups| ==> ValidGID(FillAll(groups, instanceID)[i].gid)
  {
    forall i | 0 <= i < |groups|
      ensures ValidGID(FillAll(groups, instanceID)[i].gid)
    {
      assert ValidChat(FillAll(groups, instanceID)[i]);
    }
  }

  /** What a look-up has to satisfy for the chats it was built from. */
  ghost predicate LooksUp(byGID: map<string, nat>, chats: seq<ConfiguredChat>) {
    && (forall g :: g in byGID ==> byGID[g] < |chats| && chats[byGID[g]].gid == g)
    && (forall i :: 0 <= i < |chats| ==> chats[i].gid in byGID)
  }

  /** The gid look-up that TelegramListener.Do builds; a chat is its position in the list. Of
      chats sharing a gid the last one stays; unique gids find every chat. */
  method BuildByGID(chats: seq<ConfiguredChat>) returns (byGID: map<string, nat>)
    ensures LooksUp(byGID, chats)
    ensures forall i, j :: 0 <= i < j < |chats| && chats[i].gid == chats[j].gid ==> byGID[chats[j].gid] != i
    ensures UniqueGIDs(chats) ==> forall i :: 0 <= i < |chats| ==> byGID[chats[i].gid] == i
  {
    byGID := map[];
    for i := 0 to |chats|
      invariant forall g :: g in byGID ==> byGID[g] < i && chats[byGID[g]].gid == g
      invariant forall j :: 0 <= j < i ==> chats[j].gid in byGID && byGID[chats[j].gid] >= j
    {
      byGID := byGID[chats[i].gid := i];
    }
  }

  /** resolveCallbackChat, in both handlers */
  function ResolveChat(chats: seq<ConfiguredChat>, byGID: map<string, nat>, gid: string): Option<nat> {
    if |chats| == 1 then Some(0)
    else if gid == "" then None
    else if gid in byGID then Some(byGID[gid])
    else None
  }

  // ---- printing ----

  /** One payload: prefix, the gid unless it is empty, user and message. */
  function Payload(prefix: string, gid: string, userID: int, msgID: int): string {
    if gid != "" then prefix + gid + ":" + FormatInt(userID) + ":" + FormatInt(msgID)
    else prefix + FormatInt(userID) + ":" + FormatInt(msgID)
  }

  const ADMIN_PREFIXES := ["?", "+", "!"]
  const REPORT_PREFIXES := ["R+", "R-", "R?", "R!", "RX"]

  /** callbackAskBanConfirmation: the two payloads made from the one that was pressed. */
  function ConfirmationPayloads(data: string): (string, string)
    requires data != ""
  {
    (data[1..], "+" + data[1..])
  }

  // ---- parsing ----

  datatype Parsed =
    | Parsed(gid: string, userID: int, msgID: int)
    | TooShort
    | WrongParts(n: nat)
    | BadUserID
    | BadMsgID

  function Split(s: string, sep: char): (parts: seq<string>)
    ensures parts != []
  {
    if s == [] then [""]
    else
      var rest := Split(s[1..], sep);
      if s[0] == sep then [""] + rest else [[s[0]] + rest[0]] + rest[1..]
  }

  function StripPrefix(data: string): string
    requires |data| >= 3
  {
    if data[0] == 'R' then if data[1] in "+-?!X" then data[2..] else data
    else if data[0] in "?+!" then data[1..]
    else data
  }

  /** parseCallbackData */
  function ParseCallbackData(data: string): Parsed {
    if |data| < 3 then TooShort
    else
      ParseParts(Split(StripPrefix(data), ':'))
  }

  function ParseParts(parts: seq<string>): Parsed {
    if |parts| == 2 then ParseIDs("", parts[0], parts[1])
    else if |parts| == 3 then ParseIDs(parts[0], parts[1], parts[2])
    else WrongParts(|parts|)
  }

  function ParseIDs(gid: string, user: string, msg: string): Parsed {
    match ParseInt64(user)
    case None => BadUserID
    case Some(userID) =>
      match ParseInt64(msg)
      case None => BadMsgID
      case Some(msgID) => Parsed(gid, userID, msgID)
  }

  // ---- dispatch ----

  datatype Action =
    | AskUnban | KeepBanned | ShowInfo | Unban
    | ApproveBan | RejectReport | AskReporter | BanReporter | CancelReporter
    | UnknownReportCallback | InvalidReportCallback

  /** The listener picks a handler by the first character, and the handler an action by the
      first one or two. */
  function Dispatch(data: string): Action {
    if |data| >= 3 && data[0] == 'R' then DispatchReport(data) else DispatchAdmin(data)
  }

  /** HandleReportCallback */
  function DispatchReport(data: string): Action {
    if |data| < 3 then InvalidReportCallback
    else if data[..2] == "R+" then ApproveBan
    else if data[..2] == "R-" then RejectReport
    else if data[..2] == "R?" then AskReporter
    else if data[..2] == "R!" then BanReporter
    else if data[..2] == "RX" then CancelReporter
    else UnknownReportCallback
  }

  /** InlineCallbackHandler */
  function DispatchAdmin(data: string): Action {
    if data != "" && data[0] == '?' then AskUnban
    else if data != "" && data[0] == '+' then KeepBanned
    else if data != "" && data[0] == '!' then ShowInfo
    else Unban
  }

  // ---- round trips ----

  lemma {:induction false} SplitNoSep(s: string, sep: char)
    requires sep !in s
    ensures Split(s, sep) == [s]
  {
    if s != [] {
      SplitNoSep(s[1..], sep);
      assert [s[0]] + s[1..] == s;
    }
  }

  lemma {:induction false} SplitFirst(a: string, sep: char, rest: string)
    requires sep !in a
    ensures Split(a + [sep] + rest, sep) == [a] + Split(rest, sep)
  {
    var s := a + [sep] + rest;
    if a == [] {
      assert s == [sep] + rest && s[1..] == rest;
    } else {
      assert s[1..] == a[1..] + [sep] + rest;
      SplitFirst(a[1..], sep, rest);
      assert [a[0]] + a[1..] == a;
    }
  }

  lemma NumberHasNoColon(n: int)
    ensures ':' !in FormatInt(n)
  {
    FormatIntChars(n);
  }

  /** Two printed numbers, with or without a gid before them, split back into what they were
      printed from. */
  lemma PartsRoundTrip(gid: string, userID: int, msgID: int)
    requires ':' !in gid && IsInt64(userID) && IsInt64(msgID)
    ensures var u, m := FormatInt(userID), FormatInt(msgID);
      && Split(u + [':'] + m, ':') == [u, m]
      && Split(gid + [':'] + (u + [':'] + m), ':') == [gid, u, m]
      && forall g :: ParseIDs(g, u, m) == Parsed(g, userID, msgID)
  {
    hide FormatInt, ParseInt64, Split;
    var u, m := FormatInt(userID), FormatInt(msgID);
    NumberHasNoColon(userID);
    NumberHasNoColon(msgID);
    Int64RoundTrip(userID);
    Int64RoundTrip(msgID);
    SplitNoSep(m, ':');
    SplitFirst(u, ':', m);
    SplitFirst(gid, ':', u + [':'] + m);
  }

  /** The payload without prefix, and its first characters. */
  function Bare(gid: string, userID: int, msgID: int): string {
    var tail := FormatInt(userID) + [':'] + FormatInt(msgID);
    if gid != "" then gid + [':'] + tail else tail
  }

  lemma PayloadPrefix(prefix: string, gid: string, userID: int, msgID: int)
    ensures Payload(prefix, gid, userID, msgID) == prefix + Bare(gid, userID, msgID)
  {
    hide FormatInt;
  }

  lemma BareStart(gid: string, userID: int, msgID: int)
    ensures var bare := Bare(gid, userID, msgID);
      && |bare| >= 3
      && (if gid != "" then bare[0] == gid[0] && bare[1] == (if |gid| > 1 then gid[1] else ':')
          else IsDigit(bare[0]) || bare[0] == '-')
  {
    hide FormatInt;
    FormatIntChars(userID);
    var tail := FormatInt(userID) + [':'] + FormatInt(msgID);
    assert tail[0] == FormatInt(userID)[0];
  }

  lemma BareRoundTrip(gid: string, userID: int, msgID: int)
    requires ':' !in gid && IsInt64(userID) && IsInt64(msgID)
    ensures ParseParts(Split(Bare(gid, userID, msgID), ':')) == Parsed(gid, userID, msgID)
  {
    PartsRoundTrip(gid, userID, msgID);
    hide FormatInt, ParseIDs, Split;
  }

  /** Every prefixed payload parses back to the triple it was printed from, and is dispatched
      to the action of its button. */
  lemma PrefixedRoundTrip(prefix: string, gid: string, userID: int, msgID: int)
    requires prefix in ADMIN_PREFIXES || prefix in REPORT_PREFIXES
    requires (gid == "" || ValidGID(gid)) && IsInt64(userID) && IsInt64(msgID)
    ensures ParseCallbackData(Payload(prefix, gid, userID, msgID)) == Parsed(gid, userID, msgID)
    ensures Dispatch(Payload(prefix, gid, userID, msgID)) ==
      if prefix == "?" then AskUnban else if prefix == "+" then KeepBanned else if prefix == "!" then ShowInfo
      else if prefix == "R+" then ApproveBan else if prefix == "R-" then RejectReport
      else if prefix == "R?" then AskReporter
      else if prefix == "R!" then BanReporter else CancelReporter
  {
    hide Bare, Split, ParseParts, Payload, ValidGID;
    var bare, data := Bare(gid, userID, msgID), Payload(prefix, gid, userID, msgID);
    PayloadPrefix(prefix, gid, userID, msgID);
    BareStart(gid, userID, msgID);
    NoColonIn(gid);
    BareRoundTrip(gid, userID, msgID);
    assert data[..|prefix|] == prefix && data[|prefix|..] == bare;
    if prefix in ADMIN_PREFIXES {
      assert data[0] == prefix[0] && StripPrefix(data) == bare;
    } else {
      assert data[0] == prefix[0] && data[1] == prefix[1] && StripPrefix(data) == bare;
    }
  }

  lemma NoColonIn(gid: string)
    requires gid == "" || ValidGID(gid)
    ensures ':' !in gid && ':' !in gid[(if |gid| > 2 then 2 else |gid|)..]
    ensures (gid != "" ==> IsGIDChar(gid[0])) && (|gid| > 1 ==> IsGIDChar(gid[1]))
  {
  }

  /** A gid whose payload without a prefix is mistaken for a report payload. */
  predicate LooksLikeReport(gid: string) {
    |gid| >= 2 && gid[0] == 'R' && (gid[1] == '-' || gid[1] == 'X')
  }

  /** A payload without prefix ("Unban for real") parses back exactly when its gid does not
      begin with R- or RX. */
  lemma BareParsesBack(gid: string, userID: int, msgID: int)
    requires (gid == "" || ValidGID(gid)) && IsInt64(userID) && IsInt64(msgID)
    ensures ParseCallbackData(Payload("", gid, userID, msgID)) == Parsed(gid, userID, msgID) <==> !LooksLikeReport(gid)
  {
    hide Split, ParseParts, Payload, FormatInt, ValidGID;
    var data, bare := Payload("", gid, userID, msgID), Bare(gid, userID, msgID);
    PayloadPrefix("", gid, userID, msgID);
    assert data == bare;
    BareStart(gid, userID, msgID);
    NoColonIn(gid);
    BareRoundTrip(gid, userID, msgID);
    if LooksLikeReport(gid) {
      StrippedGID(gid, userID, msgID);
    } else {
      Markers(data[0]);
      Markers(data[1]);
      assert StripPrefix(data) == data;
    }
  }

  lemma Markers(c: char)
    ensures c in "+-?!X" <==> c == '+' || c == '-' || c == '?' || c == '!' || c == 'X'
    ensures c in "?+!" <==> c == '?' || c == '+' || c == '!'
  {
  }

  lemma StrippedGID(gid: string, userID: int, msgID: int)
    requires LooksLikeReport(gid) && ValidGID(gid) && IsInt64(userID) && IsInt64(msgID)
    ensures ParseParts(Split(Bare(gid, userID, msgID)[2..], ':')) == Parsed(gid[2..], userID, msgID)
    ensures gid[2..] != gid
  {
    hide Split, FormatInt, ParseIDs;
    var tail := FormatInt(userID) + [':'] + FormatInt(msgID);
    assert Bare(gid, userID, msgID)[2..] == gid[2..] + [':'] + tail;
    NoColonIn(gid);
    PartsRoundTrip(gid[2..], userID, msgID);
    assert |gid[2..]| < |gid|;
  }

  /** It reaches the unban action exactly when its gid does not begin with R. */
  lemma BareReachesUnban(gid: string, userID: int, msgID: int)
    requires gid == "" || ValidGID(gid)
    ensures Dispatch(Payload("", gid, userID, msgID)) == Unban <==> gid == "" || gid[0] != 'R'
  {
    hide Payload, Bare, ValidGID;
    PayloadPrefix("", gid, userID, msgID);
    BareStart(gid, userID, msgID);
    NoColonIn(gid);
    assert Payload("", gid, userID, msgID) == Bare(gid, userID, msgID);
  }

  /** A payload as it is printed and read. */
  lemma PayloadExample()
    ensures Payload("R+", "g", 5, -7) == "R+g:5:-7" && ParseCallbackData("R+g:5:-7") == Parsed("g", 5, -7)
  {
    assert FormatInt(5) == "5" && FormatInt(-7) == "-7";
    assert "R+" + "g" + ":" + "5" + ":" + "-7" == "R+g:5:-7";
    hide ParseCallbackData, Dispatch, FormatInt;
    PrefixedRoundTrip("R+", "g", 5, -7);
  }

  /** Texts that are no payloads, and why. */
  lemma BadPayloads(data: string)
    ensures |data| < 3 ==> ParseCallbackData(data) == TooShort
    ensures ParseCallbackData("57890") == WrongParts(1)
    ensures ParseCallbackData("x:7") == BadUserID && ParseCallbackData("5:x") == BadMsgID
  {
    hide Split, ParseInt64;
    SplitNoSep("57890", ':');
    SplitPair("x", "7");
    SplitPair("5", "x");
    ParseDigits();
    assert "x" + [':'] + "7" == "x:7" && "5" + [':'] + "x" == "5:x";
  }

  lemma SplitPair(a: string, b: string)
    requires ':' !in a && ':' !in b
    ensures Split(a + [':'] + b, ':') == [a, b]
  {
    hide Split;
    SplitFirst(a, ':', b);
    SplitNoSep(b, ':');
    assert [a] + [b] == [a, b];
  }

  lemma ParseDigits()
    ensures ParseInt64("x") == None && ParseInt64("5") == Some(5)
  {
    assert Init("5") == "" && DigitsValue("") == Some(0);
  }

  /** A single chat gets every button, whatever gid it names; of several chats a button without a gid
      gets none. */
  lemma ChatsExactly(chats: seq<ConfiguredChat>, byGID: map<string, nat>, gid: string)
    requires LooksUp(byGID, chats)
    ensures |chats| == 1 ==> ResolveChat(chats, byGID, gid) == Some(0)
    ensures |chats| != 1 ==>
      (ResolveChat(chats, byGID, gid).Some? <==> gid != "" && exists i :: 0 <= i < |chats| && chats[i].gid == gid)
  {
  }

  /** Valid gids have 1 to 24 letters, digits, underscores and hyphens of ASCII. */
  lemma ValidGIDMeans(gid: string)
    ensures ValidGID(gid) <==>
      && 1 <= |gid| <= 24
      && forall i :: 0 <= i < |gid| ==>
        || 'a' <= gid[i] <= 'z' || 'A' <= gid[i] <= 'Z' || '0' <= gid[i] <= '9' || gid[i] in {'_', '-'}
  {
  }

  /** A gid such as "R-1" turns the unban button into a rejection of a report. */
  lemma UnbanBecomesReject() returns (gid: string)
    ensures ValidGID(gid) && Dispatch(Payload("", gid, 5, 7)) == RejectReport
    ensures ParseCallbackData(Payload("", gid, 5, 7)) == Parsed("1", 5, 7)
  {
    gid := "R-1";
    assert FormatInt(5) == "5" && FormatInt(7) == "7";
    var data := Payload("", gid, 5, 7);
    assert data == "R-1:5:7";
    assert data[..2] == "R-" && data[2..] == "1:5:7";
    BareRoundTrip("1", 5, 7);
    assert Bare("1", 5, 7) == "1:5:7";
  }

  /** The buttons shown after "?" carry the same triple without and with the "+" prefix. */
  lemma ConfirmationKeepsTriple(gid: string, userID: int, msgID: int)
    ensures ConfirmationPayloads(Payload("?", gid, userID, msgID)) ==
      (Payload("", gid, userID, msgID), Payload("+", gid, userID, msgID))
  {
    hide FormatInt, Payload;
    PayloadPrefix("?", gid, userID, msgID);
    PayloadPrefix("+", gid, userID, msgID);
    PayloadPrefix("", gid, userID, msgID);
    var bare := Bare(gid, userID, msgID);
    assert ("?" + bare)[1..] == bare && "" + bare == bare;
  }

  /** Characters that UTF-8 encodes in one byte each. */
  ghost predicate OneByte(s: string) {
    forall i :: 0 <= i < |s| ==> s[i] < '\U{0080}'
  }

  lemma OneByteConcat(a: string, b: string)
    requires OneByte(a) && OneByte(b)
    ensures OneByte(a + b)
  {
  }

  lemma NumbersFit(userID: int, msgID: int)
    requires IsInt64(userID) && 0 <= msgID < 0x8000_0000
    ensures |FormatInt(userID)| <= 20 && |FormatInt(msgID)| <= 10
  {
    Int64Length(userID);
    FormatNatLength(msgID, 10);
    assert Pow10(10) == 10_000_000_000 by {
      assert Pow10(5) == 100_000;
    }
  }

  lemma NumberIsOneByte(n: int)
    ensures OneByte(FormatInt(n))
  {
    FormatIntChars(n);
    hide FormatInt;
  }

  lemma TailFits(userID: int, msgID: int)
    requires IsInt64(userID) && 0 <= msgID < 0x8000_0000
    ensures var tail := FormatInt(userID) + [':'] + FormatInt(msgID); |tail| <= 31 && OneByte(tail)
  {
    NumbersFit(userID, msgID);
    NumberIsOneByte(userID);
    NumberIsOneByte(msgID);
    hide FormatInt, IsInt64;
    OneByteConcat(FormatInt(userID), [':']);
    OneByteConcat(FormatInt(userID) + [':'], FormatInt(msgID));
  }

  lemma PrefixFits(prefix: string)
    requires prefix == "" || prefix in ADMIN_PREFIXES || prefix in REPORT_PREFIXES
    ensures |prefix| <= 2 && OneByte(prefix)
  {
  }

  lemma GIDFits(gid: string)
    requires ValidGID(gid)
    ensures |gid + [':']| <= 25 && OneByte(gid + [':'])
  {
  }

  /** Payloads are short enough for Telegram's 64-byte limit, in characters that each take one
      byte. */
  lemma PayloadFits(prefix: string, gid: string, userID: int, msgID: int)
    requires prefix == "" || prefix in ADMIN_PREFIXES || prefix in REPORT_PREFIXES
    requires (gid == "" || ValidGID(gid)) && IsInt64(userID) && 0 <= msgID < 0x8000_0000
    ensures |Payload(prefix, gid, userID, msgID)| <= 58
    ensures OneByte(Payload(prefix, gid, userID, msgID))
  {
    PrefixFits(prefix);
    TailFits(userID, msgID);
    PayloadPrefix(prefix, gid, userID, msgID);
    hide FormatInt, Payload, OneByte, ValidGID, IsInt64;
    var tail := FormatInt(userID) + [':'] + FormatInt(msgID);
    if gid != "" {
      GIDFits(gid);
      OneByteConcat(gid + [':'], tail);
    }
    OneByteConcat(prefix, Bare(gid, userID, msgID));
  }

  // ---- end to end ----

  /** In a list of chats with unique valid gids, a pressed button reaches the chat that printed
      it, with its user and message, and the action it was made for. */
  lemma ButtonReachesItsChat(
    chats: seq<ConfiguredChat>, byGID: map<string, nat>, i: nat, prefix: string, userID: int, msgID: int)
    requires UniqueGIDs(chats) && LooksUp(byGID, chats) && i < |chats| && ValidGID(chats[i].gid)
    requires prefix in ADMIN_PREFIXES || prefix in REPORT_PREFIXES || (prefix == "" && chats[i].gid[0] != 'R')
    requires IsInt64(userID) && IsInt64(msgID)
    ensures var data := Payload(prefix, chats[i].gid, userID, msgID);
      var parsed := ParseCallbackData(data);
      && parsed == Parsed(chats[i].gid, userID, msgID)
      && ResolveChat(chats, byGID, parsed.gid) == Some(i)
      && (prefix == "" ==> Dispatch(data) == Unban)
  {
    assert chats[i].gid != "";
    hide Payload, ParseCallbackData, Dispatch, ValidGID;
    var gid := chats[i].gid;
    if prefix == "" {
      BareParsesBack(gid, userID, msgID);
      BareReachesUnban(gid, userID, msgID);
    } else {
      PrefixedRoundTrip(prefix, gid, userID, msgID);
    }
    assert gid in byGID && chats[byGID[gid]].gid == gid;
  }

  /** Whatever arrives, with several chats it reaches a chat only by that chat's own gid. */
  lemma NeverTheWrongChat(chats: seq<ConfiguredChat>, byGID: map<string, nat>, data: string, i: nat)
    requires |chats| != 1 && LooksUp(byGID, chats)
    requires ParseCallbackData(data).Parsed? && ResolveChat(chats, byGID, ParseCallbackData(data).gid) == Some(i)
    ensures i < |chats| && chats[i].gid == ParseCallbackData(data).gid != ""
  {
  }
}
