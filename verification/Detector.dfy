/** The detector of lib/tgspam/detector.go: the methods that decide and keep the approved users,
    proved against the specification, and what holds over whole runs of them. */
module Detection {
  import opened Seqs
  import opened DetectorSpec

  /** Reading an absent user yields the zero count. */
  function CountOf(approved: map<UserID, int>, user: UserID): int {
    if user in approved then approved[user] else 0
  }

  // ---- runs ----

  datatype Event =
    | Checked(req: Request, a: Answers)
    | UserAdded(user: UserID)
    | UserRemoved(user: UserID)
    | UsersLoaded(users: Option<seq<UserID>>)
    | WasReset

  predicate Fits(cfg: Config, e: Event) {
    e.Checked? ==> |cfg.llms| == |e.a.replies|
  }

  predicate AllFit(cfg: Config, events: seq<Event>) {
    events != [] ==> AllFit(cfg, Init(events)) && Fits(cfg, Last(events))
  }

  function AfterCheck(cfg: Config, approved: map<UserID, int>, req: Request, d: Decision): map<UserID, int> {
    if Counts(cfg, req, d) then approved[req.user := CountOf(approved, req.user) + 1] else approved
  }

  /** The users of the storage, each past the first messages; nobody when it cannot be read. */
  function AfterLoad(cfg: Config, users: Option<seq<UserID>>): map<UserID, int> {
    if users.None? then map[] else map u | u in users.value :: cfg.firstMessagesCount + 1
  }

  function Step(cfg: Config, approved: map<UserID, int>, e: Event): map<UserID, int>
    requires Fits(cfg, e)
  {
    match e
    case Checked(req, a) => AfterCheck(cfg, approved, req, Decide(cfg, CountOf(approved, req.user), req, a))
    case UserAdded(user) => approved[user := cfg.firstMessagesCount + 1]
    case UserRemoved(user) => approved - {user}
    case UsersLoaded(users) => AfterLoad(cfg, users)
    case WasReset => map[]
  }

  function Run(cfg: Config, events: seq<Event>): map<UserID, int>
    requires AllFit(cfg, events)
  {
    if events == [] then map[] else Step(cfg, Run(cfg, Init(events)), Last(events))
  }

  /** The verdict on the message of a step. */
  function Verdict(cfg: Config, events: seq<Event>): Decision
    requires AllFit(cfg, events) && events != [] && Last(events).Checked?
  {
    var e := Last(events);
    Decide(cfg, CountOf(Run(cfg, Init(events)), e.req.user), e.req, e.a)
  }

  /** The user is only ever checked. */
  predicate OnlyChecked(events: seq<Event>, user: UserID) {
    events != [] ==>
      && OnlyChecked(Init(events), user)
      && match Last(events) {
           case Checked(_, _) => true
           case UserAdded(u) => u != user
           case UserRemoved(u) => u != user
           case UsersLoaded(_) => false
           case WasReset => false
         }
  }

  /** A good message: not check-only, not short, through the whole pipeline where the first messages
      are limited, and ham. */
  predicate IsGood(cfg: Config, events: seq<Event>, user: UserID)
    requires AllFit(cfg, events) && events != []
  {
    && Last(events).Checked? && Last(events).req.user == user
    && !Last(events).req.checkOnly && Last(events).req.length >= cfg.minMsgLen
    && (cfg.firstMessageOnly || cfg.firstMessagesCount > 0)
    && Verdict(cfg, events).stage.Full? && !Verdict(cfg, events).spam
  }

  function GoodMessages(cfg: Config, events: seq<Event>, user: UserID): nat
    requires AllFit(cfg, events)
  {
    if events == [] then 0
    else GoodMessages(cfg, Init(events), user) + if IsGood(cfg, events, user) then 1 else 0
  }

  /** A message that the duplicate detector flagged and the models let pass. */
  predicate IsVetoedDuplicate(cfg: Config, events: seq<Event>, user: UserID)
    requires AllFit(cfg, events) && events != []
  {
    && IsGood(cfg, events, user) && Last(events).a.duplicate == Some(true)
    && Verdict(cfg, events).stage == Full(true)
  }

  function VetoedDuplicates(cfg: Config, events: seq<Event>, user: UserID): nat
    requires AllFit(cfg, events)
  {
    if events == [] then 0
    else VetoedDuplicates(cfg, Init(events), user) + if IsVetoedDuplicate(cfg, events, user) then 1 else 0
  }

  /** One checked message counts for its user, and for nobody else, exactly when it is not check-only,
      not short, and ham after the whole pipeline, where the first messages are limited. */
  lemma CheckCounts(cfg: Config, approved: map<UserID, int>, req: Request, a: Answers, u: UserID)
    requires |cfg.llms| == |a.replies|
    ensures var d := Decide(cfg, CountOf(approved, req.user), req, a);
      CountOf(Step(cfg, approved, Checked(req, a)), u) == CountOf(approved, u) +
        if && u == req.user && !req.checkOnly && req.length >= cfg.minMsgLen
           && (cfg.firstMessageOnly || cfg.firstMessagesCount > 0) && d.stage.Full? && !d.spam
        then 1 else 0
  {
    hide Decide;
  }

  /** Adding a user approves him for both gates, removing him for neither unless the limit is not
      positive, and loading approves exactly the stored users. */
  lemma OthersApprove(cfg: Config, approved: map<UserID, int>, user: UserID, u: UserID, users: Option<seq<UserID>>)
    ensures IsApproved(cfg, Step(cfg, approved, UserAdded(user)), user)
    ensures user != NoUser && cfg.firstMessageOnly ==> IsTrusted(cfg, Step(cfg, approved, UserAdded(user)), user)
    ensures u != user ==> CountOf(Step(cfg, approved, UserAdded(user)), u) == CountOf(approved, u)
    ensures user !in Step(cfg, approved, UserRemoved(user))
    ensures u != user ==> CountOf(Step(cfg, approved, UserRemoved(user)), u) == CountOf(approved, u)
    ensures IsApproved(cfg, Step(cfg, approved, UsersLoaded(users)), u) <==> users.Some? && u in users.value
    ensures u !in Step(cfg, approved, WasReset)
  {
  }

  /** The count of a user is the number of good messages. */
  lemma {:induction false} CountIsGoodMessages(cfg: Config, events: seq<Event>, user: UserID)
    requires AllFit(cfg, events) && OnlyChecked(events, user)
    ensures CountOf(Run(cfg, events), user) == GoodMessages(cfg, events, user)
  {
    hide Decide;
    if events != [] {
      CountIsGoodMessages(cfg, Init(events), user);
    }
  }

  /** So a message skips the checks exactly when its user has enough good messages before it, and
      it is no duplicate. */
  lemma GateOpensExactly(cfg: Config, events: seq<Event>, e: Event)
    requires e.Checked? && AllFit(cfg, events + [e]) && AllFit(cfg, events) && OnlyChecked(events, e.req.user)
    ensures Verdict(cfg, events + [e]).stage.PreApproved? <==>
      && e.req.user != NoUser && cfg.firstMessageOnly && e.a.duplicate != Some(true)
      && GoodMessages(cfg, events, e.req.user) >= cfg.firstMessagesCount
  {
    InitLast(events, [e]);
    assert events + Init([e]) == events;
    CountIsGoodMessages(cfg, events, e.req.user);
    DuplicateIsSpam(e.a);
    hide Run, GoodMessages, OnlyChecked, AllFit, BaseChecks, Flooded, AnySpam, Behavioral, Asked, Consensus;
    hide ReplyChecks;
  }

  lemma DuplicateIsSpam(a: Answers)
    ensures AnySpam(Behavioral(a)) <==> a.duplicate == Some(true)
  {
    if a.duplicate == Some(true) {
      assert Response("duplicate", true) in Behavioral(a);
    }
  }

  lemma DuplicateIsBaseSpam(cfg: Config, req: Request, a: Answers)
    requires a.duplicate == Some(true)
    ensures AnySpam(BaseChecks(cfg, req, a))
  {
    assert Response("duplicate", true) in BaseChecks(cfg, req, a);
  }

  /** A good message of a user who has enough of them can only be a vetoed duplicate. */
  lemma LateGoodMessage(cfg: Config, count: int, req: Request, a: Answers)
    requires |cfg.llms| == |a.replies| && cfg.firstMessageOnly && req.user != NoUser && count >= cfg.firstMessagesCount
    requires Counts(cfg, req, Decide(cfg, count, req, a))
    ensures a.duplicate == Some(true) && Decide(cfg, count, req, a).stage == Full(true)
  {
    DuplicateIsSpam(a);
    hide AnySpam, BaseChecks, Behavioral, Flooded, Asked, Consensus, ReplyChecks;
    DuplicateIsBaseSpam(cfg, req, a);
  }

  /** The two gates: Check is content with `count >= firstMessagesCount`, IsApprovedUser asks for
      more. Good messages alone do not get there; only duplicates that the models let pass do. */
  lemma {:induction false} CountIsBounded(cfg: Config, events: seq<Event>, user: UserID)
    requires AllFit(cfg, events) && OnlyChecked(events, user)
    requires cfg.firstMessageOnly && cfg.firstMessagesCount >= 0 && user != NoUser
    ensures CountOf(Run(cfg, events), user) <= cfg.firstMessagesCount + VetoedDuplicates(cfg, events, user)
  {
    if events != [] {
      CountIsBounded(cfg, Init(events), user);
      var e := Last(events);
      if IsGood(cfg, events, user) && CountOf(Run(cfg, Init(events)), user) >= cfg.firstMessagesCount {
        LateGoodMessage(cfg, CountOf(Run(cfg, Init(events)), user), e.req, e.a);
      }
      hide Decide, Counts;
    }
  }

  /** What IsApprovedUser answers. */
  predicate IsApproved(cfg: Config, approved: map<UserID, int>, user: UserID) {
    user in approved && approved[user] > cfg.firstMessagesCount
  }

  /** Whether Check lets the user's messages pass unchecked, unless they are duplicates. */
  predicate IsTrusted(cfg: Config, approved: map<UserID, int>, user: UserID) {
    user != NoUser && cfg.firstMessageOnly && CountOf(approved, user) >= cfg.firstMessagesCount
  }

  /** The two gates disagree on a user exactly when his count is the number of first messages, or he
      is unknown and that number is negative; without a limit to the first messages Check trusts
      nobody. */
  lemma GatesDisagree(cfg: Config, approved: map<UserID, int>, user: UserID)
    ensures IsTrusted(cfg, approved, user) != IsApproved(cfg, approved, user) <==>
      if user != NoUser && cfg.firstMessageOnly
      then CountOf(approved, user) == cfg.firstMessagesCount || (user !in approved && cfg.firstMessagesCount < 0)
      else IsApproved(cfg, approved, user)
  {
  }

  lemma {:induction false} KnownAfterGoodMessages(cfg: Config, events: seq<Event>, user: UserID)
    requires AllFit(cfg, events) && OnlyChecked(events, user)
    ensures user in Run(cfg, events) <==> GoodMessages(cfg, events, user) > 0
  {
    hide Decide;
    if events != [] {
      KnownAfterGoodMessages(cfg, Init(events), user);
    }
  }

  /** Over runs in which the user is only checked, IsApprovedUser takes more good messages than
      Check does, and the two disagree exactly at the number of first messages. */
  lemma GatesDisagreeExactly(cfg: Config, events: seq<Event>, user: UserID)
    requires AllFit(cfg, events) && OnlyChecked(events, user) && user != NoUser && cfg.firstMessageOnly
    ensures var good, first := GoodMessages(cfg, events, user), cfg.firstMessagesCount;
      && (IsTrusted(cfg, Run(cfg, events), user) <==> good >= first)
      && (IsApproved(cfg, Run(cfg, events), user) <==> good > first && good > 0)
      && (IsTrusted(cfg, Run(cfg, events), user) != IsApproved(cfg, Run(cfg, events), user) <==>
            good == if first > 0 then first else 0)
  {
    CountIsGoodMessages(cfg, events, user);
    KnownAfterGoodMessages(cfg, events, user);
    GatesDisagree(cfg, Run(cfg, events), user);
    hide Run, GoodMessages, AllFit, OnlyChecked;
  }

  /** A vetoed duplicate of a user who was trusted already. */
  predicate IsLateVeto(cfg: Config, events: seq<Event>, user: UserID)
    requires AllFit(cfg, events) && events != []
  {
    IsVetoedDuplicate(cfg, events, user) && GoodMessages(cfg, Init(events), user) >= cfg.firstMessagesCount
  }

  function LateVetoes(cfg: Config, events: seq<Event>, user: UserID): nat
    requires AllFit(cfg, events)
  {
    if events == [] then 0
    else LateVetoes(cfg, Init(events), user) + if IsLateVeto(cfg, events, user) then 1 else 0
  }

  /** So a user becomes approved by messages exactly when the models let a duplicate pass after
      enough good messages. */
  lemma {:induction false} ApprovedByVetoes(cfg: Config, events: seq<Event>, user: UserID)
    requires AllFit(cfg, events) && OnlyChecked(events, user)
    requires cfg.firstMessageOnly && cfg.firstMessagesCount >= 0 && user != NoUser
    ensures var good, late := GoodMessages(cfg, events, user), LateVetoes(cfg, events, user);
      && (late > 0 ==> good == cfg.firstMessagesCount + late)
      && (late == 0 ==> good <= cfg.firstMessagesCount)
    ensures IsApproved(cfg, Run(cfg, events), user) <==> LateVetoes(cfg, events, user) > 0
  {
    CountIsGoodMessages(cfg, events, user);
    KnownAfterGoodMessages(cfg, events, user);
    if events != [] {
      var e := Last(events);
      ApprovedByVetoes(cfg, Init(events), user);
      CountIsGoodMessages(cfg, Init(events), user);
      if IsGood(cfg, events, user) && GoodMessages(cfg, Init(events), user) >= cfg.firstMessagesCount {
        LateGoodMessage(cfg, CountOf(Run(cfg, Init(events)), user), e.req, e.a);
      }
      hide Decide, Counts, Run;
    }
  }

  // ---- a run in which the two gates disagree ----

  /** One first message, and one model that may veto spam. */
  const VETOING := Config(true, 1, 5, 0, CONSENSUS_ANY, [LLM("openai", true, false, true)])

  /** A message of ten characters, flagged as a duplicate or not, which the model calls ham. */
  function Message(duplicate: bool): Event {
    Checked(Request(User("1"), 10, false, 1), Answers(Some(duplicate), None, None, [], [], [Reply(false, false)]))
  }

  lemma ModelLetsPass(count: int, duplicate: bool)
    requires duplicate || count < 1
    ensures var e := Message(duplicate);
      Decide(VETOING, count, e.req, e.a).stage == Full(duplicate) && !Decide(VETOING, count, e.req, e.a).spam
  {
    var e := Message(duplicate);
    SuspiciousIsBaseSpam(VETOING, e.req, e.a);
    OneAsked(duplicate);
    hide AnySpam, BaseChecks, Behavioral, Asked, ReplyChecks, Consensus;
  }

  /** The one model may only let a duplicate pass, and does. */
  lemma OneAsked(duplicate: bool)
    ensures !Consensus(duplicate, Asked(duplicate, false, VETOING.llms, [Reply(false, false)]), CONSENSUS_ANY)
  {
    var llms, replies := VETOING.llms, [Reply(false, false)];
    assert Init(llms) == [] && Init(replies) == [];
    assert Asked(duplicate, false, [], []) == [];
    var asked := Asked(duplicate, false, llms, replies);
    assert asked == if duplicate then [(llms[0], replies[0])] else [];
    hide Asked;
    if duplicate {
      assert (llms[0], replies[0]) in asked && Flips(true, replies[0]);
    }
  }

  /** So such a message counts. */
  lemma StepCounts(approved: map<UserID, int>, duplicate: bool)
    requires duplicate || CountOf(approved, User("1")) < 1
    ensures Step(VETOING, approved, Message(duplicate)) ==
      approved[User("1") := CountOf(approved, User("1")) + 1]
  {
    hide Decide;
    ModelLetsPass(CountOf(approved, User("1")), duplicate);
  }

  lemma RunAppend(cfg: Config, events: seq<Event>, e: Event)
    requires AllFit(cfg, events) && Fits(cfg, e)
    ensures AllFit(cfg, events + [e]) && Run(cfg, events + [e]) == Step(cfg, Run(cfg, events), e)
  {
    hide Step, Fits;
    InitLast(events, [e]);
    assert events + Init([e]) == events;
  }

  lemma NothingRun(cfg: Config)
    ensures AllFit(cfg, []) && Run(cfg, []) == map[]
  {
  }

  /** After one good message the next one passes unchecked, yet the user is not approved; a duplicate
      that the model lets pass approves him. */
  lemma GatesDisagreeRun()
    ensures var user, one, two := User("1"), [Message(false)], [Message(false), Message(true)];
      && AllFit(VETOING, one) && AllFit(VETOING, two)
      && IsTrusted(VETOING, Run(VETOING, one), user) && !IsApproved(VETOING, Run(VETOING, one), user)
      && IsApproved(VETOING, Run(VETOING, two), user)
  {
    hide AllFit, Run, Step;
    var one, two := [Message(false)], [Message(false), Message(true)];
    assert one == [] + [Message(false)] && two == one + [Message(true)];
    NothingRun(VETOING);
    RunAppend(VETOING, [], Message(false));
    StepCounts(map[], false);
    assert Run(VETOING, one) == map[User("1") := 1];
    RunAppend(VETOING, one, Message(true));
    StepCounts(map[User("1") := 1], true);
  }

  // ---- the detector ----

  method IsSpamDetected(cr: seq<Response>) returns (spam: bool)
    ensures spam == AnySpam(cr)
  {
    for i := 0 to |cr|
      invariant !AnySpam(cr[..i])
    {
      assert cr[..i + 1] == cr[..i] + [cr[i]];
      if cr[i].spam {
        return true;
      }
    }
    assert cr[..|cr|] == cr;
    return false;
  }

  lemma AskedNext(baseSpam: bool, isShort: bool, llms: seq<LLM>, replies: seq<Reply>, i: nat)
    requires |llms| == |replies| && i < |llms|
    ensures var before := Asked(baseSpam, isShort, llms[..i], replies[..i]);
      Asked(baseSpam, isShort, llms[..i + 1], replies[..i + 1]) ==
        if Eligible(baseSpam, isShort, llms[i]) then before + [(llms[i], replies[i])] else before
  {
    assert Init(llms[..i + 1]) == llms[..i] && Init(replies[..i + 1]) == replies[..i];
  }

  lemma NobodyAsked(baseSpam: bool, isShort: bool, llms: seq<LLM>, replies: seq<Reply>)
    requires |llms| == |replies|
    ensures Asked(baseSpam, isShort, llms[..0], replies[..0]) == [] && ReplyChecks([]) == []
  {
  }

  /** collectLLMCheck for all models, in their order. */
  method CollectLLMChecks(baseSpam: bool, isShort: bool, llms: seq<LLM>, replies: seq<Reply>, checks: seq<Response>)
    returns (flips: seq<bool>, cr: seq<Response>)
    requires |llms| == |replies|
    ensures var asked := Asked(baseSpam, isShort, llms, replies);
      && cr == checks + ReplyChecks(asked)
      && |flips| == |asked| && forall i :: 0 <= i < |asked| ==> flips[i] == Flips(baseSpam, asked[i].1)
  {
    hide Asked, ReplyChecks;
    flips, cr := [], checks;
    NobodyAsked(baseSpam, isShort, llms, replies);
    for i := 0 to |llms|
      invariant var asked := Asked(baseSpam, isShort, llms[..i], replies[..i]);
        && cr == checks + ReplyChecks(asked)
        && |flips| == |asked| && forall j :: 0 <= j < |asked| ==> flips[j] == Flips(baseSpam, asked[j].1)
    {
      ghost var before := Asked(baseSpam, isShort, llms[..i], replies[..i]);
      var llm, reply := llms[i], replies[i];
      AskedNext(baseSpam, isShort, llms, replies, i);
      if llm.enabled && ShouldApply(baseSpam, isShort, llm) {
        ReplyChecksAppend(before, (llm, reply));
        cr := cr + [Response(llm.name, reply.spam)];
        flips := flips + [!reply.failed && ((!baseSpam && reply.spam) || (baseSpam && !reply.spam))];
      }
    }
    assert llms[..|llms|] == llms && replies[..|replies|] == replies;
  }

  /** applyLLMConsensus */
  method ApplyLLMConsensus(baseSpam: bool, flips: seq<bool>, mode: string) returns (spam: bool)
    ensures spam != baseSpam <==>
      if NormalizeLLMConsensusMode(mode) == CONSENSUS_ALL then flips != [] && false !in flips else true in flips
  {
    if |flips| == 0 {
      return baseSpam;
    }
    if NormalizeLLMConsensusMode(mode) == CONSENSUS_ALL {
      for i := 0 to |flips|
        invariant false !in flips[..i]
      {
        assert flips[..i + 1] == flips[..i] + [flips[i]];
        if !flips[i] {
          return baseSpam;
        }
      }
      assert flips[..|flips|] == flips;
      return !baseSpam;
    }
    for i := 0 to |flips|
      invariant true !in flips[..i]
    {
      assert flips[..i + 1] == flips[..i] + [flips[i]];
      if flips[i] {
        return !baseSpam;
      }
    }
    assert flips[..|flips|] == flips;
    return baseSpam;
  }

  lemma FlipsMean(baseSpam: bool, asked: seq<(LLM, Reply)>, flips: seq<bool>, mode: string)
    requires |flips| == |asked| && forall i :: 0 <= i < |asked| ==> flips[i] == Flips(baseSpam, asked[i].1)
    ensures Agreed(baseSpam, asked, mode) <==>
      if NormalizeLLMConsensusMode(mode) == CONSENSUS_ALL then flips != [] && false !in flips else true in flips
  {
    hide Flips;
    if true in flips {
      var i :| 0 <= i < |flips| && flips[i];
      assert asked[i] in asked;
    }
    if x :| x in asked && Flips(baseSpam, x.1) {
      var i :| 0 <= i < |asked| && asked[i] == x;
      assert flips[i];
    }
    if false in flips {
      var i :| 0 <= i < |flips| && !flips[i];
      assert asked[i] in asked;
    }
  }

  class Detector {
    const cfg: Config
    var approvedUsers: map<UserID, int>
    var hamHistory: seq<Request>
    var spamHistory: seq<Request>

    /** NewDetectorWithModel: the models vote by "any" unless told otherwise, a number of first messages
        limits the checks to them, and without such a number the limit is the first one. */
    constructor (cfg: Config)
      ensures this.cfg == cfg.(
        llmConsensus := if cfg.llmConsensus == "all" then "all" else "any",
        firstMessageOnly := cfg.firstMessageOnly || cfg.firstMessagesCount > 0,
        firstMessagesCount :=
          if cfg.firstMessageOnly && cfg.firstMessagesCount == 0 then 1 else cfg.firstMessagesCount)
      ensures approvedUsers == map[] && hamHistory == [] && spamHistory == []
    {
      var res := cfg.(llmConsensus := NormalizeLLMConsensusMode(cfg.llmConsensus));
      if cfg.firstMessagesCount > 0 {
        res := res.(firstMessageOnly := true);
      }
      if cfg.firstMessageOnly && cfg.firstMessagesCount == 0 {
        res := res.(firstMessagesCount := 1);
      }
      this.cfg := res;
      approvedUsers, hamHistory, spamHistory := map[], [], [];
    }

    /** isShortMsgFlood and the guard around it */
    method IsShortMsgFlood(req: Request, a: Answers) returns (resp: Response)
      ensures resp == if Flooded(cfg, CountOf(approvedUsers, req.user), req, a) then FloodResponse(req, a)
        else Response("short-msg-flood", false)
    {
      resp := Response("short-msg-flood", false);
      if cfg.maxShortMsgCount <= 0 || a.counter.None? || !(cfg.firstMessageOnly || cfg.firstMessagesCount > 0) {
        return;
      }
      if req.user == NoUser || req.checkOnly || req.length >= cfg.minMsgLen {
        return;
      }
      var approvedCount := CountOf(approvedUsers, req.user);
      if approvedCount >= cfg.firstMessagesCount {
        return;
      }
      if a.counter.value.None? {
        return;
      }
      var excess := a.counter.value.value - approvedCount;
      if excess < cfg.maxShortMsgCount {
        return;
      }
      var extraIDs: seq<int> := [];
      if a.userMessageIDs.Some? {
        var ids := a.userMessageIDs.value;
        for i := 0 to |ids|
          invariant extraIDs == OtherIDs(ids[..i], req.messageID)
        {
          assert Init(ids[..i + 1]) == ids[..i];
          if ids[i] != req.messageID {
            extraIDs := extraIDs + [ids[i]];
          }
        }
        assert ids[..|ids|] == ids;
      }
      return Response("short-msg-flood", true, extraIDs);
    }

    method ShortIsChecked() returns (checked: bool)
      ensures checked == SomeChecksShort(cfg.llms)
    {
      checked := false;
      for i := 0 to |cfg.llms|
        invariant checked == SomeChecksShort(cfg.llms[..i])
      {
        assert cfg.llms[..i + 1] == cfg.llms[..i] + [cfg.llms[i]];
        if cfg.llms[i].enabled && cfg.llms[i].checkShortMessages {
          assert cfg.llms[i] in cfg.llms[..i + 1];
          checked := true;
        }
      }
      assert cfg.llms[..|cfg.llms|] == cfg.llms;
    }

    /** What Check does with the language models (lines 352-387). */
    method AskModels(baseSpam: bool, isShort: bool, a: Answers, checks: seq<Response>)
      returns (spam: bool, cr: seq<Response>)
      requires |cfg.llms| == |a.replies|
      ensures var asked := Asked(baseSpam, isShort, cfg.llms, a.replies);
        && spam == Consensus(baseSpam, asked, cfg.llmConsensus)
        && cr == checks + ReplyChecks(asked)
    {
      hide Asked, ReplyChecks, Agreed;
      var flips;
      flips, cr := CollectLLMChecks(baseSpam, isShort, cfg.llms, a.replies, checks);
      spam := ApplyLLMConsensus(baseSpam, flips, cfg.llmConsensus);
      FlipsMean(baseSpam, Asked(baseSpam, isShort, cfg.llms, a.replies), flips, cfg.llmConsensus);
    }

    /** The end of Check (lines 344-412), with the verdicts of all other checks. */
    method CheckFully(req: Request, a: Answers, checks: seq<Response>) returns (spam: bool, cr: seq<Response>)
      requires |cfg.llms| == |a.replies| && checks == BaseChecks(cfg, req, a)
      modifies this
      ensures var d := DecideFully(cfg, req, a);
        && spam == d.spam && cr == d.checks
        && approvedUsers == AfterCheck(cfg, old(approvedUsers), req, d)
        && spamHistory == old(spamHistory) + (if spam then [req] else [])
        && hamHistory == old(hamHistory) + (if spam then [] else [req])
    {
      hide AnySpam, Asked, ReplyChecks, Consensus, BaseChecks;
      var baseSpam := IsSpamDetected(checks);
      spam, cr := baseSpam, checks;
      if Learning(cfg) {
        spam, cr := AskModels(baseSpam, req.length < cfg.minMsgLen, a, checks);
      }
      if spam {
        spamHistory := spamHistory + [req];
        return;
      }
      if Learning(cfg) && !req.checkOnly && !IsShort(cfg, req) {
        approvedUsers := approvedUsers[req.user := CountOf(approvedUsers, req.user) + 1];
      }
      hamHistory := hamHistory + [req];
    }

    /** Check from line 272 on, with the verdict of the duplicate detector. */
    method CheckContent(req: Request, a: Answers, checks: seq<Response>) returns (spam: bool, cr: seq<Response>)
      requires |cfg.llms| == |a.replies| && checks == Behavioral(a)
      modifies this
      ensures var d := DecideContent(cfg, req, a);
        && spam == d.spam && cr == d.checks
        && approvedUsers == AfterCheck(cfg, old(approvedUsers), req, d)
        && spamHistory == old(spamHistory) + (if d.spam then [req] else [])
        && hamHistory == old(hamHistory) + (if d.stage.Full? && !d.spam then [req] else [])
    {
      hide AnySpam, Asked, ReplyChecks, SomeChecksShort, Behavioral, Consensus;
      cr := checks + a.simple;
      if req.length < cfg.minMsgLen {
        cr := cr + [Response("message length", false)];
        var detected := IsSpamDetected(cr);
        var checked := ShortIsChecked();
        if detected || !Learning(cfg) || !checked {
          if detected {
            spamHistory := spamHistory + [req];
            return true, cr;
          }
          return false, cr;
        }
      } else {
        cr := cr + a.content;
      }
      spam, cr := CheckFully(req, a, cr);
    }

    /** Check */
    method Check(req: Request, a: Answers) returns (spam: bool, cr: seq<Response>)
      requires |cfg.llms| == |a.replies|
      modifies this
      ensures var d := Decide(cfg, CountOf(old(approvedUsers), req.user), req, a);
        && spam == d.spam && cr == d.checks
        && approvedUsers == AfterCheck(cfg, old(approvedUsers), req, d)
        && spamHistory == old(spamHistory) + (if d.spam then [req] else [])
        && hamHistory == old(hamHistory) + (if d.stage.Full? && !d.spam then [req] else [])
    {
      hide AnySpam, Flooded, DecideContent, FloodIDs;
      cr := [];
      if a.duplicate.Some? {
        cr := cr + [Response("duplicate", a.duplicate.value)];
      }
      assert cr == Behavioral(a);
      hide Behavioral;
      var detected := IsSpamDetected(cr);
      var approvedCount := CountOf(approvedUsers, req.user);
      if req.user != NoUser && cfg.firstMessageOnly && !detected && approvedCount >= cfg.firstMessagesCount {
        return false, cr + [Response("pre-approved", false)];
      }
      var flood := IsShortMsgFlood(req, a);
      if flood.spam {
        cr := cr + [flood];
        spamHistory := spamHistory + [req];
        return true, cr;
      }
      spam, cr := CheckContent(req, a, cr);
    }

    /** IsApprovedUser */
    method IsApprovedUser(user: UserID) returns (approved: bool)
      ensures approved <==> IsApproved(cfg, approvedUsers, user)
    {
      if user !in approvedUsers {
        return false;
      }
      return approvedUsers[user] > cfg.firstMessagesCount;
    }

    /** AddApprovedUser: the user is approved even when the storage fails. */
    method AddApprovedUser(user: UserID, hasStorage: bool, writes: bool) returns (ok: bool)
      modifies this`approvedUsers
      ensures approvedUsers == Step(cfg, old(approvedUsers), UserAdded(user))
      ensures ok == (hasStorage ==> writes)
    {
      approvedUsers := approvedUsers[user := cfg.firstMessagesCount + 1];
      if hasStorage && !writes {
        return false;
      }
      return true;
    }

    /** RemoveApprovedUser */
    method RemoveApprovedUser(user: UserID, hasStorage: bool, deletes: bool) returns (ok: bool)
      modifies this`approvedUsers
      ensures approvedUsers == Step(cfg, old(approvedUsers), UserRemoved(user))
      ensures ok == (hasStorage ==> deletes)
    {
      approvedUsers := approvedUsers - {user};
      if hasStorage && !deletes {
        return false;
      }
      return true;
    }

    /** WithUserStorage: everybody is forgotten first, so nobody is approved when the storage
        cannot be read. */
    method WithUserStorage(users: Option<seq<UserID>>) returns (count: int, ok: bool)
      modifies this`approvedUsers
      ensures approvedUsers == Step(cfg, old(approvedUsers), UsersLoaded(users))
      ensures ok == users.Some? && count == if ok then |users.value| else 0
    {
      approvedUsers := map[];
      if users.None? {
        return 0, false;
      }
      for i := 0 to |users.value|
        invariant approvedUsers == map u | u in users.value[..i] :: cfg.firstMessagesCount + 1
      {
        assert users.value[..i + 1] == users.value[..i] + [users.value[i]];
        approvedUsers := approvedUsers[users.value[i] := cfg.firstMessagesCount + 1];
      }
      assert users.value[..|users.value|] == users.value;
      return |users.value|, true;
    }
  }
}
