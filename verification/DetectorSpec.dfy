/** How lib/tgspam/detector.go decides about a message: the order of the checks, the consensus of
    the language models, and the count of good messages that approves a user. The verdicts of the
    single checks are part of the input. */
module DetectorSpec {
  import opened Seqs

  datatype UserID = NoUser | User(id: string)

  datatype Response = Response(name: string, spam: bool, extraDeleteIDs: seq<int> := [])

  /** The answer of a language model; a failed call has no say. */
  datatype Reply = Reply(spam: bool, failed: bool)

  datatype LLM = LLM(name: string, enabled: bool, checkShortMessages: bool, veto: bool)

  const CONSENSUS_ANY := "any"
  const CONSENSUS_ALL := "all"

  datatype Config = Config(
    firstMessageOnly: bool,
    firstMessagesCount: int,
    minMsgLen: int,
    maxShortMsgCount: int,
    llmConsensus: string,
    llms: seq<LLM>)

  datatype Request = Request(user: UserID, length: int, checkOnly: bool, messageID: int)

  /** What the checks answer to one message: the duplicate detector if there is one, the message
      counter if there is one, with its failure, and the message IDs that it lists unless it fails,
      the checks before and behind the length check, and the language models. */
  datatype Answers = Answers(
    duplicate: Option<bool>,
    counter: Option<Option<int>>,
    userMessageIDs: Option<seq<int>>,
    simple: seq<Response>,
    content: seq<Response>,
    replies: seq<Reply>)

  function NormalizeLLMConsensusMode(mode: string): (r: string)
    ensures r == CONSENSUS_ALL <==> mode == CONSENSUS_ALL
    ensures r == CONSENSUS_ALL || r == CONSENSUS_ANY
  {
    if mode == CONSENSUS_ALL then mode else CONSENSUS_ANY
  }

  /** Only the first messages of a user are checked. */
  predicate Learning(cfg: Config) {
    cfg.firstMessageOnly || cfg.firstMessagesCount > 0
  }

  predicate AnySpam(checks: seq<Response>) {
    exists r :: r in checks && r.spam
  }

  // ---- the language models ----

  /** shouldApplyLLMCheck */
  predicate ShouldApply(baseSpam: bool, isShort: bool, llm: LLM) {
    if isShort then llm.checkShortMessages else (!baseSpam && !llm.veto) || (baseSpam && llm.veto)
  }

  predicate Eligible(baseSpam: bool, isShort: bool, llm: LLM) {
    llm.enabled && ShouldApply(baseSpam, isShort, llm)
  }

  /** A model that answered, and disagreed. */
  predicate Flips(baseSpam: bool, reply: Reply) {
    !reply.failed && reply.spam != baseSpam
  }

  /** The models that take part, with their answers, in their order. */
  function Asked(baseSpam: bool, isShort: bool, llms: seq<LLM>, replies: seq<Reply>): seq<(LLM, Reply)>
    requires |llms| == |replies|
  {
    if llms == [] then []
    else
      var rest := Asked(baseSpam, isShort, Init(llms), Init(replies));
      if Eligible(baseSpam, isShort, Last(llms)) then rest + [(Last(llms), Last(replies))] else rest
  }

  predicate Agreed(baseSpam: bool, asked: seq<(LLM, Reply)>, mode: string) {
    if NormalizeLLMConsensusMode(mode) == CONSENSUS_ALL
    then asked != [] && forall x :: x in asked ==> Flips(baseSpam, x.1)
    else exists x :: x in asked && Flips(baseSpam, x.1)
  }

  /** The verdict after the models had their say. */
  predicate Consensus(baseSpam: bool, asked: seq<(LLM, Reply)>, mode: string) {
    if Agreed(baseSpam, asked, mode) then !baseSpam else baseSpam
  }

  // ---- the decision ----

  datatype Stage = PreApproved | Flood | TooShort | Full(baseSpam: bool)

  datatype Decision = Decision(stage: Stage, spam: bool, checks: seq<Response>)

  /** isShortMsgFlood */
  predicate Flooded(cfg: Config, count: int, req: Request, a: Answers) {
    && cfg.maxShortMsgCount > 0 && a.counter.Some? && Learning(cfg)
    && req.user != NoUser && !req.checkOnly && req.length < cfg.minMsgLen
    && count < cfg.firstMessagesCount
    && a.counter.value.Some? && a.counter.value.value - count >= cfg.maxShortMsgCount
  }

  /** The other messages, in their order. */
  function OtherIDs(ids: seq<int>, messageID: int): (r: seq<int>)
    ensures forall id :: id in r <==> id in ids && id != messageID
  {
    if ids == [] then []
    else
      assert forall id :: id in ids <==> id in Init(ids) || id == Last(ids);
      OtherIDs(Init(ids), messageID) + if Last(ids) == messageID then [] else [Last(ids)]
  }

  /** The messages to delete with a flood: the listed ones but the current. */
  function FloodIDs(req: Request, a: Answers): seq<int> {
    if a.userMessageIDs.None? then [] else OtherIDs(a.userMessageIDs.value, req.messageID)
  }

  /** The response to a flood. */
  function FloodResponse(req: Request, a: Answers): Response {
    Response("short-msg-flood", true, FloodIDs(req, a))
  }

  function Behavioral(a: Answers): seq<Response> {
    if a.duplicate.Some? then [Response("duplicate", a.duplicate.value)] else []
  }

  predicate IsShort(cfg: Config, req: Request) {
    req.length < cfg.minMsgLen
  }

  predicate SomeChecksShort(llms: seq<LLM>) {
    exists llm :: llm in llms && llm.enabled && llm.checkShortMessages
  }

  /** The checks without the models. */
  function BaseChecks(cfg: Config, req: Request, a: Answers): seq<Response> {
    Behavioral(a) + a.simple + if IsShort(cfg, req) then [Response("message length", false)] else a.content
  }

  function ReplyChecks(asked: seq<(LLM, Reply)>): seq<Response> {
    if asked == [] then [] else ReplyChecks(Init(asked)) + [Response(Last(asked).0.name, Last(asked).1.spam)]
  }

  /** The end of Check: the verdict of all other checks, and then of the models if they are asked. */
  function DecideFully(cfg: Config, req: Request, a: Answers): Decision
    requires |cfg.llms| == |a.replies|
  {
    var checks := BaseChecks(cfg, req, a);
    var baseSpam := AnySpam(checks);
    if !Learning(cfg) then
      Decision(Full(baseSpam), baseSpam, checks)
    else
      var asked := Asked(baseSpam, IsShort(cfg, req), cfg.llms, a.replies);
      Decision(Full(baseSpam), Consensus(baseSpam, asked, cfg.llmConsensus), checks + ReplyChecks(asked))
  }

  /** Check from the length of the message on. */
  function DecideContent(cfg: Config, req: Request, a: Answers): Decision
    requires |cfg.llms| == |a.replies|
  {
    var checks := BaseChecks(cfg, req, a);
    if IsShort(cfg, req) && (AnySpam(checks) || !Learning(cfg) || !SomeChecksShort(cfg.llms)) then
      Decision(TooShort, AnySpam(checks), checks)
    else DecideFully(cfg, req, a)
  }

  /** Check, for a user with `count` good messages. */
  function Decide(cfg: Config, count: int, req: Request, a: Answers): Decision
    requires |cfg.llms| == |a.replies|
  {
    if req.user != NoUser && cfg.firstMessageOnly && !AnySpam(Behavioral(a)) && count >= cfg.firstMessagesCount then
      Decision(PreApproved, false, Behavioral(a) + [Response("pre-approved", false)])
    else if Flooded(cfg, count, req, a) then
      Decision(Flood, true, Behavioral(a) + [FloodResponse(req, a)])
    else DecideContent(cfg, req, a)
  }

  /** The verdict counts toward the approval of the user. */
  predicate Counts(cfg: Config, req: Request, d: Decision) {
    d.stage.Full? && !d.spam && Learning(cfg) && !req.checkOnly && !IsShort(cfg, req)
  }

  // ---- who can change a verdict ----

  lemma {:induction false} AskedAreEligible(baseSpam: bool, isShort: bool, llms: seq<LLM>, replies: seq<Reply>)
    requires |llms| == |replies|
    ensures forall x :: x in Asked(baseSpam, isShort, llms, replies) <==>
      exists i :: 0 <= i < |llms| && Eligible(baseSpam, isShort, llms[i]) && x == (llms[i], replies[i])
  {
    if llms != [] {
      var n := |llms| - 1;
      AskedAreEligible(baseSpam, isShort, Init(llms), Init(replies));
      forall x
        ensures x in Asked(baseSpam, isShort, llms, replies) <==>
          exists i :: 0 <= i < |llms| && Eligible(baseSpam, isShort, llms[i]) && x == (llms[i], replies[i])
      {
        var before := Asked(baseSpam, isShort, Init(llms), Init(replies));
        if i :| 0 <= i < |llms| && Eligible(baseSpam, isShort, llms[i]) && x == (llms[i], replies[i]) {
          if i < n {
            assert Init(llms)[i] == llms[i] && Init(replies)[i] == replies[i];
            assert x in before;
          }
        }
        if x in before {
          var i :| 0 <= i < n && Eligible(baseSpam, isShort, Init(llms)[i]) && x == (Init(llms)[i], Init(replies)[i]);
          assert llms[i] == Init(llms)[i] && replies[i] == Init(replies)[i];
        }
      }
    }
  }

  /** A model that may change the verdict of the other checks: it answered and disagreed; spam
      becomes ham only through a veto model, ham becomes spam only through a model without veto,
      or one for short messages. */
  predicate MayFlip(baseSpam: bool, isShort: bool, llm: LLM, reply: Reply) {
    && llm.enabled && !reply.failed && reply.spam != baseSpam
    && (baseSpam ==> llm.veto && !isShort)
    && (!baseSpam ==> if isShort then llm.checkShortMessages else !llm.veto)
  }

  /** Models change a verdict exactly when one that may does (mode "any"), or when all that were
      asked do, and there are some (mode "all"); and only where the first messages are limited. */
  lemma FlippedExactly(cfg: Config, count: int, req: Request, a: Answers)
    requires |cfg.llms| == |a.replies|
    ensures var d := Decide(cfg, count, req, a);
      var isShort := req.length < cfg.minMsgLen;
      d.stage.Full? ==>
        (d.spam != d.stage.baseSpam <==>
          && (cfg.firstMessageOnly || cfg.firstMessagesCount > 0)
          && (exists i :: 0 <= i < |cfg.llms| && MayFlip(d.stage.baseSpam, isShort, cfg.llms[i], a.replies[i]))
          && (cfg.llmConsensus == "all" ==>
                forall i :: 0 <= i < |cfg.llms| && Eligible(d.stage.baseSpam, isShort, cfg.llms[i]) ==>
                  MayFlip(d.stage.baseSpam, isShort, cfg.llms[i], a.replies[i])))
  {
    var d := Decide(cfg, count, req, a);
    if d.stage.Full? && Learning(cfg) {
      var base, isShort := d.stage.baseSpam, IsShort(cfg, req);
      AskedAreEligible(base, isShort, cfg.llms, a.replies);
      hide AnySpam, Asked, ReplyChecks, BaseChecks, Flooded;
      var asked := Asked(base, isShort, cfg.llms, a.replies);
      assert d.spam == Consensus(base, asked, cfg.llmConsensus);
      AgreedExactly(base, isShort, cfg, a);
    }
  }

  /** Asked are the enabled models that check short messages, for a short one; and for another one
      those with a veto when it is spam, and those without when it is ham. */
  lemma EligibleMeans(baseSpam: bool, isShort: bool, llm: LLM)
    ensures Eligible(baseSpam, isShort, llm) <==>
      llm.enabled && if isShort then llm.checkShortMessages else llm.veto == baseSpam
  {
  }

  lemma AgreedExactly(base: bool, isShort: bool, cfg: Config, a: Answers)
    requires |cfg.llms| == |a.replies| && (isShort ==> !base)
    ensures Agreed(base, Asked(base, isShort, cfg.llms, a.replies), cfg.llmConsensus) <==>
      && (exists i :: 0 <= i < |cfg.llms| && MayFlip(base, isShort, cfg.llms[i], a.replies[i]))
      && (cfg.llmConsensus == CONSENSUS_ALL ==>
            forall i :: 0 <= i < |cfg.llms| && Eligible(base, isShort, cfg.llms[i]) ==>
              MayFlip(base, isShort, cfg.llms[i], a.replies[i]))
  {
    var llms, replies := cfg.llms, a.replies;
    var asked := Asked(base, isShort, llms, replies);
    AskedAreEligible(base, isShort, llms, replies);
    hide Asked;
    forall i | 0 <= i < |llms|
      ensures MayFlip(base, isShort, llms[i], replies[i]) <==>
        Eligible(base, isShort, llms[i]) && Flips(base, replies[i])
      ensures Eligible(base, isShort, llms[i]) ==> (llms[i], replies[i]) in asked
    {
    }
    hide Eligible, Flips, MayFlip;
    if asked != [] {
      assert asked[0] in asked;
    }
  }

  /** A failed answer counts as agreement with the other checks: the verdict is that with an agreeing
      answer, or another failed one, in its place. In mode "all" it blocks every change. */
  lemma FailureIsAgreement(cfg: Config, count: int, req: Request, a: Answers, b: Answers)
    requires |cfg.llms| == |a.replies| == |b.replies| && b == a.(replies := b.replies)
    requires var base := AnySpam(BaseChecks(cfg, req, a));
      forall i :: 0 <= i < |a.replies| ==>
        a.replies[i] == b.replies[i] || (a.replies[i].failed && (b.replies[i].failed || b.replies[i].spam == base))
    ensures Decide(cfg, count, req, a).spam == Decide(cfg, count, req, b).spam
    ensures var d := Decide(cfg, count, req, a);
      && d.stage.Full? && cfg.llmConsensus == CONSENSUS_ALL
      && (exists i ::
            0 <= i < |cfg.llms| && Eligible(d.stage.baseSpam, IsShort(cfg, req), cfg.llms[i]) && a.replies[i].failed)
      ==> d.spam == d.stage.baseSpam
  {
    var d := Decide(cfg, count, req, a);
    FlippedExactly(cfg, count, req, a);
    FlippedExactly(cfg, count, req, b);
    hide AnySpam, Asked, ReplyChecks, BaseChecks, Flooded, Consensus;
    if d.stage.Full? {
      var base, isShort := d.stage.baseSpam, IsShort(cfg, req);
      forall i | 0 <= i < |cfg.llms|
        ensures MayFlip(base, isShort, cfg.llms[i], a.replies[i]) <==> MayFlip(base, isShort, cfg.llms[i], b.replies[i])
        ensures a.replies[i].failed ==> !MayFlip(base, isShort, cfg.llms[i], a.replies[i])
      {
      }
      hide MayFlip, Eligible;
    }
  }

  // ---- what the responses show ----

  lemma AnySpamConcat(a: seq<Response>, b: seq<Response>)
    ensures AnySpam(a + b) <==> AnySpam(a) || AnySpam(b)
  {
    if r :| r in a && r.spam {
      assert r in a + b;
    }
    if r :| r in b && r.spam {
      assert r in a + b;
    }
  }

  lemma {:induction false} ReplyChecksShow(asked: seq<(LLM, Reply)>)
    ensures AnySpam(ReplyChecks(asked)) <==> exists x :: x in asked && x.1.spam
  {
    if asked != [] {
      ReplyChecksShow(Init(asked));
      var shown := Response(Last(asked).0.name, Last(asked).1.spam);
      AnySpamConcat(ReplyChecks(Init(asked)), [shown]);
      assert AnySpam([shown]) <==> shown.spam by {
        assert shown in [shown];
      }
      assert forall x :: x in asked <==> x in Init(asked) || x == Last(asked);
    }
  }

  /** A spam verdict always has a response that says spam. */
  lemma SpamHasAReason(cfg: Config, count: int, req: Request, a: Answers)
    requires |cfg.llms| == |a.replies| && Decide(cfg, count, req, a).spam
    ensures AnySpam(Decide(cfg, count, req, a).checks)
  {
    var base, isShort := AnySpam(BaseChecks(cfg, req, a)), IsShort(cfg, req);
    var asked := Asked(base, isShort, cfg.llms, a.replies);
    AnySpamConcat(BaseChecks(cfg, req, a), ReplyChecks(asked));
    ReplyChecksShow(asked);
    var flood := FloodResponse(req, a);
    AnySpamConcat(Behavioral(a), [flood]);
    assert AnySpam([flood]) by {
      assert flood in [flood];
    }
    hide AnySpam, Asked, ReplyChecks, BaseChecks, Behavioral, Flooded;
    if Agreed(base, asked, cfg.llmConsensus) && !base {
      SomeModelSaysSpam(asked, cfg.llmConsensus);
    }
  }

  lemma SomeModelSaysSpam(asked: seq<(LLM, Reply)>, mode: string)
    requires Agreed(false, asked, mode)
    ensures exists x :: x in asked && x.1.spam
  {
    if asked != [] {
      assert asked[0] in asked;
    }
  }

  /** Some check other than the models calls the message spam; a short message is spared those of
      its content. */
  predicate Suspicious(cfg: Config, req: Request, a: Answers) {
    || a.duplicate == Some(true)
    || (exists r :: r in a.simple && r.spam)
    || (!IsShort(cfg, req) && exists r :: r in a.content && r.spam)
  }

  lemma SuspiciousIsBaseSpam(cfg: Config, req: Request, a: Answers)
    ensures AnySpam(BaseChecks(cfg, req, a)) <==> Suspicious(cfg, req, a)
    ensures AnySpam(Behavioral(a)) <==> a.duplicate == Some(true)
  {
    var tail := if IsShort(cfg, req) then [Response("message length", false)] else a.content;
    AnySpamConcat(Behavioral(a) + a.simple, tail);
    AnySpamConcat(Behavioral(a), a.simple);
    if a.duplicate == Some(true) {
      assert Response("duplicate", true) in Behavioral(a);
    }
  }

  /** Where a message ends up, and with which verdict before the models: an approved user who does
      not repeat himself passes; else a flood is spam, which takes enough messages beyond those that
      were approved; else a short message is judged at once when it is suspicious or no model may look
      at it; else the whole pipeline decides. */
  lemma StagesExactly(cfg: Config, count: int, req: Request, a: Answers)
    requires |cfg.llms| == |a.replies|
    ensures var d := Decide(cfg, count, req, a);
      var learning, isShort := cfg.firstMessageOnly || cfg.firstMessagesCount > 0, req.length < cfg.minMsgLen;
      var trusted := req.user != NoUser && cfg.firstMessageOnly && count >= cfg.firstMessagesCount
        && a.duplicate != Some(true);
      var flooded := cfg.maxShortMsgCount > 0 && learning && isShort
        && req.user != NoUser && !req.checkOnly && count < cfg.firstMessagesCount
        && a.counter.Some? && a.counter.value.Some? && a.counter.value.value - count >= cfg.maxShortMsgCount;
      var hasty := isShort &&
        (|| Suspicious(cfg, req, a) || !learning
         || !exists llm :: llm in cfg.llms && llm.enabled && llm.checkShortMessages);
      && (d.stage.PreApproved? <==> trusted)
      && (d.stage.Flood? <==> flooded && !trusted)
      && (d.stage.TooShort? <==> !trusted && !flooded && hasty)
      && (d.stage.PreApproved? ==> !d.spam) && (d.stage.Flood? ==> d.spam)
      && (d.stage.TooShort? ==> (d.spam <==> Suspicious(cfg, req, a)))
      && (d.stage.Full? ==> (d.stage.baseSpam <==> Suspicious(cfg, req, a)))
  {
    SuspiciousIsBaseSpam(cfg, req, a);
    hide AnySpam, Asked, ReplyChecks, BaseChecks, Behavioral, Consensus, Suspicious;
  }

  /** The other IDs of a list are those of its parts, so their order is that of the list. */
  lemma {:induction false} OtherIDsConcat(a: seq<int>, b: seq<int>, messageID: int)
    ensures OtherIDs(a + b, messageID) == OtherIDs(a, messageID) + OtherIDs(b, messageID)
  {
    if b == [] {
      assert a + b == a;
    } else {
      InitLast(a, b);
      OtherIDsConcat(a, Init(b), messageID);
    }
  }

  lemma OtherIDsOfOne(id: int, messageID: int)
    ensures OtherIDs([id], messageID) == if id == messageID then [] else [id]
  {
    assert Init([id]) == [] && OtherIDs([], messageID) == [];
  }

  /** The responses, stage by stage: that of the duplicate detector comes first, then the approval or
      the flood, or else the simple checks, the length or the content, and the models that were asked,
      each with its own answer. */
  lemma ResponsesExactly(cfg: Config, count: int, req: Request, a: Answers)
    returns (asked: seq<nat>, replies: seq<Response>)
    requires |cfg.llms| == |a.replies|
    ensures forall j, k :: 0 <= j < k < |asked| ==> asked[j] < asked[k]
    ensures var d := Decide(cfg, count, req, a);
      forall i: nat :: i in asked <==>
        && i < |cfg.llms| && cfg.llms[i].enabled && d.stage.Full?
        && (cfg.firstMessageOnly || cfg.firstMessagesCount > 0)
        && if req.length < cfg.minMsgLen then cfg.llms[i].checkShortMessages else cfg.llms[i].veto == d.stage.baseSpam
    ensures |replies| == |asked| && forall k :: 0 <= k < |asked| ==>
      asked[k] < |cfg.llms| && replies[k] == Response(cfg.llms[asked[k]].name, a.replies[asked[k]].spam)
    ensures var d := Decide(cfg, count, req, a);
      var first := if a.duplicate.Some? then [Response("duplicate", a.duplicate.value)] else [];
      var middle := if req.length < cfg.minMsgLen then [Response("message length", false)] else a.content;
      d.checks ==
        if d.stage.PreApproved? then first + [Response("pre-approved", false)]
        else if d.stage.Flood? then
          first + [Response("short-msg-flood", true,
            if a.userMessageIDs.Some? then OtherIDs(a.userMessageIDs.value, req.messageID) else [])]
        else first + a.simple + middle + replies
  {
    hide AnySpam, Flooded, Asked, ReplyChecks, Consensus;
    var d := Decide(cfg, count, req, a);
    asked, replies := [], [];
    if d.stage.Full? && Learning(cfg) {
      asked := AskedPositions(d.stage.baseSpam, IsShort(cfg, req), cfg.llms, a.replies);
      replies := ReplyChecks(Asked(d.stage.baseSpam, IsShort(cfg, req), cfg.llms, a.replies));
    }
  }

  lemma ReplyChecksAppend(asked: seq<(LLM, Reply)>, x: (LLM, Reply))
    ensures ReplyChecks(asked + [x]) == ReplyChecks(asked) + [Response(x.0.name, x.1.spam)]
  {
    InitLast(asked, [x]);
    assert asked + Init([x]) == asked;
  }

  lemma AskedLast(baseSpam: bool, isShort: bool, llms: seq<LLM>, replies: seq<Reply>)
    requires |llms| == |replies| > 0
    ensures var before := Asked(baseSpam, isShort, Init(llms), Init(replies));
      ReplyChecks(Asked(baseSpam, isShort, llms, replies)) ==
        ReplyChecks(before) +
        if Eligible(baseSpam, isShort, Last(llms)) then [Response(Last(llms).name, Last(replies).spam)] else []
  {
    hide ReplyChecks, Eligible;
    var before := Asked(baseSpam, isShort, Init(llms), Init(replies));
    ReplyChecksAppend(before, (Last(llms), Last(replies)));
    assert ReplyChecks(before) + [] == ReplyChecks(before);
  }

  /** The positions of the models that are asked, and what they answer. */
  lemma {:induction false} AskedPositions(baseSpam: bool, isShort: bool, llms: seq<LLM>, replies: seq<Reply>)
    returns (at: seq<nat>)
    requires |llms| == |replies|
    ensures forall j, k :: 0 <= j < k < |at| ==> at[j] < at[k]
    ensures forall i: nat :: i in at <==> i < |llms| && Eligible(baseSpam, isShort, llms[i])
    ensures var checks := ReplyChecks(Asked(baseSpam, isShort, llms, replies));
      |checks| == |at| && forall k :: 0 <= k < |at| ==>
        at[k] < |llms| && checks[k] == Response(llms[at[k]].name, replies[at[k]].spam)
  {
    if llms == [] {
      at := [];
    } else {
      hide ReplyChecks, Asked, Eligible;
      var n: nat := |llms| - 1;
      at := AskedPositions(baseSpam, isShort, Init(llms), Init(replies));
      AskedLast(baseSpam, isShort, llms, replies);
      assert forall i :: 0 <= i < n ==> Init(llms)[i] == llms[i] && Init(replies)[i] == replies[i];
      if Eligible(baseSpam, isShort, llms[n]) {
        at := at + [n];
      }
    }
  }

  /** In mode "any" a failed model might as well not be configured. */
  lemma FailureIsAbsenceInAny(cfg: Config, count: int, req: Request, a: Answers, k: nat)
    requires |cfg.llms| == |a.replies| && k < |cfg.llms| && a.replies[k].failed && cfg.llmConsensus != CONSENSUS_ALL
    ensures var without := cfg.(llms := cfg.llms[k := cfg.llms[k].(enabled := false)]);
      Decide(cfg, count, req, a).spam == Decide(without, count, req, a).spam
  {
    var without := cfg.(llms := cfg.llms[k := cfg.llms[k].(enabled := false)]);
    var isShort, base := IsShort(cfg, req), Suspicious(cfg, req, a);
    StagesExactly(cfg, count, req, a);
    StagesExactly(without, count, req, a);
    FlippedExactly(cfg, count, req, a);
    FlippedExactly(without, count, req, a);
    assert Suspicious(without, req, a) == base;
    forall i | 0 <= i < |cfg.llms|
      ensures MayFlip(base, isShort, cfg.llms[i], a.replies[i]) <==>
        MayFlip(base, isShort, without.llms[i], a.replies[i])
      ensures MayFlip(base, true, cfg.llms[i], a.replies[i]) ==>
        without.llms[i] in without.llms && without.llms[i].enabled && without.llms[i].checkShortMessages
      ensures without.llms[i].enabled ==> cfg.llms[i] == without.llms[i] && cfg.llms[i] in cfg.llms
    {
    }
    hide Decide, Flooded, Suspicious, MayFlip, Eligible;
  }
}
