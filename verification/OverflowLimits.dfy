/** For which requests the recovery from a context overflow can never read out of range. Of a request
    without empty messages every sanitizing keeps some message that is not the user's, if there is
    one, and a last or last but one message that no later sanitizing can remove; where only the user
    has messages, they may all become one. */
module OverflowLimits {
  import opened Seqs
  import opened Messages
  import opened ToolPairing
  import opened TurnMerging
  import opened TurnCollapse
  import opened ReplayTrim
  import opened TurnValidator
  import opened RequestSanitizer
  import opened ProviderRetry
  import opened AgentTurns
  import opened AgentLaws
  import opened OverflowRecovery

  // ---------------------------------------------------------------------
  // Requests without empty messages
  // ---------------------------------------------------------------------

  predicate AllContent(ms: seq<Message>) {
    forall m :: m in ms ==> m.content != []
  }

  predicate IsOther(m: Message) {
    !m.role.User?
  }

  /** Someone besides the user has a message. */
  ghost predicate HasOther(ms: seq<Message>) {
    exists m :: m in ms && IsOther(m)
  }

  lemma ContentConcat(a: seq<Message>, b: seq<Message>)
    ensures AllContent(a + b) <==> AllContent(a) && AllContent(b)
  {
    assert forall m :: m in a + b <==> m in a || m in b;
  }

  lemma OtherConcat(a: seq<Message>, b: seq<Message>)
    ensures HasOther(a + b) <==> HasOther(a) || HasOther(b)
  {
    hide IsOther;
    assert forall m :: m in a + b <==> m in a || m in b;
  }

  lemma ContentCons(ms: seq<Message>)
    requires ms != []
    ensures AllContent(ms) <==> ms[0].content != [] && AllContent(ms[1..])
    ensures HasOther(ms) <==> IsOther(ms[0]) || HasOther(ms[1..])
  {
    ContentConcat([ms[0]], ms[1..]);
    OtherConcat([ms[0]], ms[1..]);
    assert ms == [ms[0]] + ms[1..];
    assert ms[0] in [ms[0]];
  }

  // Repair

  lemma RepairOneContent(open: set<string>, m: Message, answered: set<string>)
    ensures m.content != [] ==> AllContent(RepairOne(open, m, answered))
    ensures IsOther(m) ==> HasOther(RepairOne(open, m, answered))
  {
    if IsOther(m) {
      assert RepairOne(open, m, answered)[0] in RepairOne(open, m, answered);
    }
  }

  lemma {:induction false} RepairContent(open: set<string>, ms: seq<Message>)
    ensures AllContent(ms) ==> AllContent(RepairFrom(open, ms))
    ensures HasOther(ms) ==> HasOther(RepairFrom(open, ms))
    decreases ms
  {
    hide AllContent, HasOther, RepairOne, IsOther;
    if ms != [] {
      var one, rest := RepairOne(open, ms[0], NextResultIds(ms[1..])), RepairFrom(PendingIds(ms[0]), ms[1..]);
      ContentCons(ms);
      ContentConcat(one, rest);
      OtherConcat(one, rest);
      RepairOneContent(open, ms[0], NextResultIds(ms[1..]));
      RepairContent(PendingIds(ms[0]), ms[1..]);
    }
  }

  // Collapse

  lemma {:induction false} CollapseContent(ms: seq<Message>)
    ensures AllContent(ms) ==> AllContent(Collapse(ms))
    ensures HasOther(ms) ==> HasOther(Collapse(ms))
    decreases |ms|
  {
    if ms != [] {
      ContentCons(ms);
      if CanCollapse(ms) {
        CollapseContent(ms[3..]);
        ContentConcat([ms[2]], Collapse(ms[3..]));
        OtherConcat([ms[2]], Collapse(ms[3..]));
        assert ms[2] in ms && ms[2] in [ms[2]];
        assert forall m :: m in ms[3..] ==> m in ms;
      } else {
        CollapseContent(ms[1..]);
        ContentConcat([ms[0]], Collapse(ms[1..]));
        OtherConcat([ms[0]], Collapse(ms[1..]));
        assert ms[0] in [ms[0]];
      }
    }
  }

  // Merging

  lemma {:induction false} MergeContent(role: Role, rule: StampRule, ms: seq<Message>)
    ensures AllContent(ms) ==> AllContent(Merge(role, rule, ms))
    ensures HasOther(ms) ==> HasOther(Merge(role, rule, ms))
    decreases |ms|
  {
    hide AllContent, HasOther;
    if |ms| >= 2 {
      ContentCons(ms);
      if ms[0].role == role && ms[1].role == role {
        var j := Join(ms[0], ms[1], rule);
        var joined := [j] + ms[2..];
        ContentCons(ms[1..]);
        assert ms[1..][0] == ms[1] && ms[1..][1..] == ms[2..];
        ContentCons(joined);
        Cons(j, ms[2..]);
        MergeContent(role, rule, joined);
      } else {
        var merged := [ms[0]] + Merge(role, rule, ms[1..]);
        ContentCons(merged);
        Cons(ms[0], Merge(role, rule, ms[1..]));
        MergeContent(role, rule, ms[1..]);
      }
    }
  }

  // Trimming and the hint

  /** A list that is trimmed ends in results, and right before them stands the call they answer. */
  lemma TrimContent(ms: seq<Message>, trimmed: seq<Message>)
    requires IsTrimmed(ms, trimmed)
    ensures AllContent(ms) ==> AllContent(trimmed)
    ensures Paired(ms) && HasOther(ms) ==> HasOther(trimmed)
  {
    if TrimApplies(ms) {
      var t: nat :| IsTurnStart(ms, LeadingSystem(ms), t) && trimmed == ms[..LeadingSystem(ms)] + ms[t..];
      ContentConcat(ms[..LeadingSystem(ms)], ms[t..]);
      if Paired(ms) {
        var last := |ms| - 1;
        assert ResultsCalled(ms, last);
        assert ms[last].content[0] in ms[last].content;
        assert t <= last - 1 && ms[t..][last - 1 - t] == ms[last - 1];
        assert IsOther(ms[last - 1]) && ms[last - 1] in ms[t..];
        OtherConcat(ms[..LeadingSystem(ms)], ms[t..]);
      }
    }
  }

  lemma HintContent(ms: seq<Message>, names: set<string>, hint: string)
    requires hint != ""
    ensures AllContent(ms) ==> AllContent(AddHint(ms, names, hint))
    ensures HasOther(ms) ==> HasOther(AddHint(ms, names, hint))
  {
    hide Hinted, HasOther, AllContent;
    var n := LeadingSystem(ms);
    var front, end, added := ms[..n], ms[n..], [TextMessage(System, hint)];
    assert ms == front + end;
    assert AllContent(added) by { HintHasContent(hint); }
    ContentConcat(front, end);
    ContentConcat(front, added);
    ContentConcat(front + added, end);
    OtherConcat(front, end);
    OtherConcat(front, added);
    OtherConcat(front + added, end);
  }

  lemma HintHasContent(hint: string)
    requires hint != ""
    ensures AllContent([TextMessage(System, hint)])
  {
  }

  // The validator

  lemma {:induction false} StripContent(ms: seq<Message>)
    ensures AllContent(ms) ==> AllContent(Strip(ms))
    ensures HasOther(ms) ==> HasOther(Strip(ms))
  {
    hide AllContent, HasOther;
    if ms != [] {
      ContentCons(ms);
      StripContent(ms[1..]);
      ContentCons(Strip(ms));
      Cons(StripOne(ms[0], ms[1..]), Strip(ms[1..]));
    }
  }

  lemma ValidatedContent(ms: seq<Message>, provider: string)
    requires AllContent(ms)
    ensures AllContent(Validated(ms, provider))
    ensures HasOther(ms) ==> HasOther(Validated(ms, provider))
    ensures UserWords(Validated(ms, provider)) == UserWords(ms)
  {
    hide HasOther, Strip, Merge;
    if provider == "anthropic" {
      StripContent(ms);
      WithContentAll(Strip(ms));
      MergeContent(User, LatestStamp, Strip(ms));
      FixAnthropicLaws(ms);
    } else if provider == "google" || provider == "gemini" {
      WithContentAll(ms);
      MergeContent(Assistant, LatestStamp, ms);
      MergeUserWords(Assistant, LatestStamp, ms);
    }
  }

  /** What every sanitizing keeps of a request without empty messages. */
  lemma SanitizedContent(provider: Provider, validator: bool, ms: seq<Message>, sent: seq<Message>)
    requires AllContent(ms) && IsSanitized(provider, validator, ms, sent)
    ensures AllContent(sent)
    ensures HasOther(ms) ==> HasOther(sent)
    ensures UserWords(ms) != [] ==> UserWords(sent) != []
  {
    hide AllContent, HasOther, IsTrimmed, AddHint, Validated, Collapse, Merge, Repair, Paired;
    if provider == Provider.Provider("anthropic") {
      var trimmed :| IsTrimmed(Merged(ms), trimmed) &&
        sent == Finish(provider, validator, AddHint(trimmed, TrailingReplayNames(trimmed), REPLAY_HINT));
      RepairContent({}, ms);
      assert Repair(ms) == RepairFrom({}, ms) by { RepairIs(ms); }
      CollapseContent(Repair(ms));
      MergeContent(User, FirstStamp, Collapse(Repair(ms)));
      MergedLaws(ms);
      TrimContent(Merged(ms), trimmed);
      TrimUserWords(Merged(ms), trimmed);
      assert REPLAY_HINT != "";
      var hinted := AddHint(trimmed, TrailingReplayNames(trimmed), REPLAY_HINT);
      HintContent(trimmed, TrailingReplayNames(trimmed), REPLAY_HINT);
      AddHintUserWords(trimmed, TrailingReplayNames(trimmed), REPLAY_HINT);
      ValidatedContent(hinted, provider.name);
    } else if provider.Provider? {
      ValidatedContent(ms, provider.name);
    }
  }

  lemma RepairIs(ms: seq<Message>)
    ensures Repair(ms) == RepairFrom({}, ms)
  {
  }

  // ---------------------------------------------------------------------
  // The end of a request
  // ---------------------------------------------------------------------

  /** One of the last two messages is lasting. */
  ghost predicate EndsLasting(ms: seq<Message>) {
    |ms| >= 2 ==> Lasting(ms[|ms| - 1]) || Lasting(ms[|ms| - 2])
  }

  lemma {:induction false} MergeSnoc(role: Role, rule: StampRule, ms: seq<Message>, m: Message)
    requires m.role != role
    ensures Merge(role, rule, ms + [m]) == Merge(role, rule, ms) + [m]
    decreases |ms|
  {
    hide Join;
    if ms == [] {
      assert ms + [m] == [m];
    } else if |ms| == 1 {
      assert (ms + [m])[0] == ms[0] && (ms + [m])[1..] == [m];
    } else if ms[0].role == role && ms[1].role == role {
      var joined := [Join(ms[0], ms[1], rule)] + ms[2..];
      MergeSnoc(role, rule, joined, m);
      assert (ms + [m])[2..] == ms[2..] + [m];
      Assoc([Join(ms[0], ms[1], rule)], ms[2..], [m]);
    } else {
      MergeSnoc(role, rule, ms[1..], m);
      Uncons(ms, [m]);
      assert (ms + [m])[1] == ms[1];
      Assoc([ms[0]], Merge(role, rule, ms[1..]), [m]);
    }
  }

  lemma {:induction false} MergeLast(role: Role, rule: StampRule, ms: seq<Message>)
    requires ms != []
    ensures var r := Merge(role, rule, ms); r != [] && r[|r| - 1].role == ms[|ms| - 1].role
    decreases |ms|
  {
    if |ms| >= 2 {
      if ms[0].role == role && ms[1].role == role {
        MergeLast(role, rule, [Join(ms[0], ms[1], rule)] + ms[2..]);
      } else {
        MergeLast(role, rule, ms[1..]);
      }
    }
  }

  lemma OtherIsLasting(ms: seq<Message>, i: nat)
    requires AllContent(ms) && i < |ms| && IsOther(ms[i])
    ensures Lasting(ms[i])
  {
  }

  lemma MergedEnds(rule: StampRule, ms: seq<Message>)
    requires AllContent(ms) && EndsLasting(ms)
    ensures EndsLasting(Merge(Assistant, rule, ms))
  {
    hide Lasting, AllContent;
    var r, n := Merge(Assistant, rule, ms), |ms|;
    MergeContent(Assistant, rule, ms);
    if |r| >= 2 {
      MergeLast(Assistant, rule, ms);
      if ms[n - 1].role.User? {
        SplitAt(ms, n - 1);
        assert ms == ms[..n - 1] + [ms[n - 1]] by { Whole(ms); }
        MergeSnoc(Assistant, rule, ms[..n - 1], ms[n - 1]);
        SecondLast(rule, ms[..n - 1], ms[n - 1]);
      } else {
        OtherIsLasting(r, |r| - 1);
      }
    }
  }

  lemma SecondLast(rule: StampRule, front: seq<Message>, last: Message)
    requires AllContent(front + [last]) && EndsLasting(front + [last]) && last.role.User?
    ensures EndsLasting(Merge(Assistant, rule, front) + [last])
  {
    hide Lasting, AllContent;
    var n, r := |front|, Merge(Assistant, rule, front);
    if n > 0 {
      MergeLast(Assistant, rule, front);
      ContentConcat(front, [last]);
      MergeContent(Assistant, rule, front);
      if front[n - 1].role.User? {
        assert front == front[..n - 1] + [front[n - 1]];
        MergeSnoc(Assistant, rule, front[..n - 1], front[n - 1]);
        assert r[|r| - 1] == front[n - 1];
      } else {
        OtherIsLasting(r, |r| - 1);
      }
      var all := r + [last];
      assert all[|all| - 1] == last && all[|all| - 2] == r[|r| - 1];
      assert (front + [last])[n] == last && (front + [last])[n - 1] == front[n - 1];
    }
  }

  lemma NeighboursEnd(ms: seq<Message>)
    requires AllContent(ms) && NoAdjacent(User, ms)
    ensures EndsLasting(ms)
  {
    if |ms| >= 2 {
      var i := |ms| - 2;
      assert !(ms[i].role == User && ms[i + 1].role == User);
    }
  }

  lemma SanitizedEnds(provider: Provider, validator: bool, ms: seq<Message>, sent: seq<Message>)
    requires AllContent(ms) && EndsLasting(ms) && IsSanitized(provider, validator, ms, sent)
    ensures EndsLasting(sent)
  {
    SanitizedContent(provider, validator, ms, sent);
    hide AllContent, EndsLasting;
    if provider == Provider.Provider("anthropic") {
      hide IsSanitized;
      AnthropicRequestSound(validator, ms, sent);
      NeighboursEnd(sent);
    } else if provider.Provider? && validator && (provider.name == "google" || provider.name == "gemini") {
      assert WithContent(ms) == ms by { AllKept(ms); }
      MergedEnds(LatestStamp, ms);
    }
  }

  lemma AllKept(ms: seq<Message>)
    requires AllContent(ms)
    ensures WithContent(ms) == ms
  {
    WithContentAll(ms);
  }

  // ---------------------------------------------------------------------
  // Through a turn
  // ---------------------------------------------------------------------

  /** The request can be shortened to no less than two messages: besides the user's words there is a
      message of someone else. */
  ghost predicate Shared(ms: seq<Message>) {
    HasOther(ms) && UserWords(ms) != []
  }

  lemma FewNotShared(ms: seq<Message>)
    requires |ms| < 2
    ensures !Shared(ms)
  {
    if ms != [] {
      assert UserWords(ms) == WordsOfMessage(ms[0]) + UserWords(ms[1..]);
    }
  }

  /** What holds at the start of a pass: no empty messages, and an end that survives; before the first
      overflow, perhaps a shared request, and after it an anchored one. */
  ghost predicate Lasts(s: State, shared: bool) {
    && AllContent(s.messages) && EndsLasting(s.messages)
    && (s.overflows > 0 ==> Anchored(s.messages))
    && (shared && s.overflows == 0 ==> Shared(s.messages))
  }

  ghost predicate SentLasts(before: State, x: Execution, shared: bool) {
    Lasts(before.(messages := x.sent), shared)
  }

  lemma {:induction false} CallsLast(env: Environment, cfg: Settings, messages: seq<Message>, endpoint: Endpoint,
                                     now: nat, calls: seq<Attempt>, k: nat)
    requires ProviderRetry.Begun(env, cfg, messages, endpoint, now, calls) && k < |calls|
    requires AllContent(messages) && EndsLasting(messages)
    ensures AllContent(calls[k].sent) && EndsLasting(calls[k].sent)
    ensures Shared(messages) ==> Shared(calls[k].sent)
  {
    hide AllContent, EndsLasting, HasOther, IsSanitized, After;
    if k == 0 {
      SanitizedContent(ProviderOf(calls[0].endpoint), cfg.validator, messages, calls[0].sent);
      SanitizedEnds(ProviderOf(calls[0].endpoint), cfg.validator, messages, calls[0].sent);
    } else {
      CallsLast(env, cfg, messages, endpoint, now, calls, k - 1);
      assert LinkedAt(env, cfg, calls, k);
      SanitizedContent(ProviderOf(calls[k].endpoint), cfg.validator, calls[k - 1].sent, calls[k].sent);
      SanitizedEnds(ProviderOf(calls[k].endpoint), cfg.validator, calls[k - 1].sent, calls[k].sent);
    }
  }

  lemma ExecutionLasts(env: Environment, cfg: Settings, before: State, now: nat, x: Execution, shared: bool)
    requires Executed(env, cfg, before.messages, before.endpoint, now, x) && Lasts(before, shared)
    ensures SentLasts(before, x, shared)
  {
    hide AllContent, EndsLasting, Shared, Anchored, ProviderRetry.Begun, After;
    if before.overflows > 0 {
      SentAnchored(env, cfg, before.messages, before.endpoint, now, x);
    }
    if x.calls != [] {
      CallsLast(env, cfg, before.messages, before.endpoint, now, x.calls, |x.calls| - 1);
    }
  }

  /** Adding two messages, one of them lasting. */
  lemma AppendLasts(ms: seq<Message>, two: seq<Message>)
    requires AllContent(ms) && |two| == 2 && AllContent(two) && Lasting(two[0])
    ensures AllContent(ms + two) && EndsLasting(ms + two)
    ensures Shared(ms) ==> Shared(ms + two)
    ensures Anchored(ms) ==> Anchored(ms + two)
  {
    hide AllContent, HasOther, Lasting, Anchored;
    ContentConcat(ms, two);
    OtherConcat(ms, two);
    UserWordsConcat(ms, two);
    if Anchored(ms) {
      AppendAnchored(ms, two);
    }
  }

  lemma ExchangeLasts(response: Response, texts: seq<string>)
    requires |texts| == |response.toolCalls| > 0
    ensures AllContent(Exchange(response, texts)) && Lasting(Exchange(response, texts)[0])
  {
  }

  lemma CorrectionLasts(content: string, correction: string)
    ensures AllContent([AssistantText(content), UserText(correction)]) && Lasting(AssistantText(content))
  {
  }

  lemma KeptEnds(turn: Turn, ms: seq<Message>)
    requires |ms| >= 2 && AllContent(ms) && EndsLasting(ms)
    ensures AllContent(Compacted(turn, ms)) && EndsLasting(Compacted(turn, ms)) && Anchored(Compacted(turn, ms))
  {
    hide AllContent, HasLasting, Lasting;
    var notice, kept := TextMessage(System, OVERFLOW_NOTICE), ms[|ms| - KeptOnOverflow(|ms|)..];
    var c := Compacted(turn, ms);
    CompactionKeepsEnd(turn, ms);
    assert c[|c| - 2..][1] == ms[|ms| - 2..][1] && c[|c| - 2..][0] == ms[|ms| - 2..][0];
    assert ms == ms[..|ms| - KeptOnOverflow(|ms|)] + kept;
    ContentConcat(ms[..|ms| - KeptOnOverflow(|ms|)], kept);
    ContentConcat(Prompt(turn) + [notice], kept);
    assert AllContent(Prompt(turn) + [notice]) by { PromptContent(turn); }
    if turn.systemPrompt != "" {
      PromptAnchors(turn, ms);
    } else {
      assert c == [notice] + kept && c[1..] == kept;
      NoticeIsLead();
      KeptHasLasting(ms, |ms| - KeptOnOverflow(|ms|));
    }
  }

  lemma KeptHasLasting(ms: seq<Message>, from: nat)
    requires |ms| >= 2 && from <= |ms| - 2 && EndsLasting(ms)
    ensures HasLasting(ms[from..])
  {
    var i := if Lasting(ms[|ms| - 1]) then |ms| - 1 else |ms| - 2;
    assert ms[from..][i - from] == ms[i];
    assert ms[i] in ms[from..];
  }

  lemma PromptContent(turn: Turn)
    ensures AllContent(Prompt(turn) + [TextMessage(System, OVERFLOW_NOTICE)])
  {
  }

  lemma PassLasts(env: Environment, turn: Turn, before: State, x: Execution, shared: bool)
    requires SentLasts(before, x, shared)
    ensures var r := AfterPass(env, turn, before, x);
            && (r.Continue? ==> Lasts(r.state, shared))
            && (r == Over(OutOfRange) ==> before.overflows == 0 && !shared)
  {
    hide AllContent, EndsLasting, Shared, Anchored, Exchange, ToolTexts, Truncated, Compacted, TrailingReplayNames;
    if x.outcome.Answered? {
      AnswerLasts(env, turn, Called(before, x), x.outcome.response, shared);
    } else if x.outcome == Failed(ContextOverflow) && before.overflows < OVERFLOW_RETRIES {
      if |x.sent| >= 2 {
        KeptEnds(turn, x.sent);
      } else {
        TooShort(x.sent, before.overflows > 0, shared && before.overflows == 0);
      }
    }
  }

  lemma TooShort(sent: seq<Message>, anchored: bool, shared: bool)
    requires |sent| < 2 && (anchored ==> Anchored(sent)) && (shared ==> Shared(sent))
    ensures !anchored && !shared
  {
    if Anchored(sent) {
      AnchoredSize(sent);
    }
    FewNotShared(sent);
  }

  lemma AnswerLasts(env: Environment, turn: Turn, s: State, response: Response, shared: bool)
    requires Lasts(s, shared)
    ensures var r := AfterAnswer(env, turn, s, response);
            (r.Continue? ==> Lasts(r.state, shared)) && r != Over(OutOfRange)
  {
    hide AllContent, EndsLasting, Shared, Anchored, Exchange, ToolTexts, Truncated, TrailingReplayNames, Lasting;
    if response.toolCalls != [] {
      var texts := Truncated(turn, ToolTexts(env, response.toolCalls, s.now));
      ExchangeLasts(response, texts);
      assert |Exchange(response, texts)| == 2 by { ExchangeSize(response, texts); }
      AppendLasts(s.messages, Exchange(response, texts));
    } else {
      CorrectionLasts(response.content, turn.lookupCorrection);
      AppendLasts(s.messages, [AssistantText(response.content), UserText(turn.lookupCorrection)]);
      CorrectionLasts(response.content, turn.searchCorrection);
      AppendLasts(s.messages, [AssistantText(response.content), UserText(turn.searchCorrection)]);
    }
  }

  lemma ExchangeSize(response: Response, texts: seq<string>)
    requires |texts| == |response.toolCalls|
    ensures |Exchange(response, texts)| == 2
  {
  }

  lemma {:induction false} PassesLast(env: Environment, turn: Turn, start: State, passes: seq<Pass>, k: nat,
                                      shared: bool)
    requires AgentTurns.Begun(env, turn, start, passes) && k < |passes| && Lasts(start, shared)
    ensures SentLasts(passes[k].before, passes[k].exec, shared)
  {
    hide Lasts, SentLasts, AgentTurns.Begun, AfterPass, Executed;
    PassAt(env, turn, start, passes, k);
    if k > 0 {
      PassesLast(env, turn, start, passes, k - 1, shared);
      PassLasts(env, turn, passes[k - 1].before, passes[k - 1].exec, shared);
    }
    ExecutionLasts(env, turn.settings, passes[k].before, passes[k].before.now + 1, passes[k].exec, shared);
  }

  /** A request as ProcessMessage builds it: no message is empty, and the user's words come last. */
  predicate Proper(request: seq<Message>) {
    AllContent(request) && request != [] && HasWords(request[|request| - 1])
  }

  lemma ProperLasts(turn: Turn, request: seq<Message>, provider: Endpoint, now: nat, shared: bool)
    requires Proper(request) && (shared ==> HasOther(request))
    ensures Lasts(StartOf(turn, request, provider, now), shared)
  {
    var n := |request| - 1;
    assert request == request[..n] + [request[n]];
    UserWordsConcat(request[..n], [request[n]]);
    WordsPresent(request[n]);
    assert UserWords([request[n]]) == WordsOfMessage(request[n]) + [];
  }

  lemma LastPassLasts(env: Environment, turn: Turn, request: seq<Message>, provider: Endpoint, now: nat,
                      passes: seq<Pass>, result: TurnResult, shared: bool)
    requires Proper(request) && (shared ==> HasOther(request))
    requires TurnOf(env, turn, StartOf(turn, request, provider, now), passes, result) && result == OutOfRange
    ensures !shared && passes != [] && passes[|passes| - 1].before.overflows == 0
  {
    hide AgentTurns.Begun, AfterPass, Proper, Lasts, SentLasts, HasOther;
    ProperLasts(turn, request, provider, now, shared);
    assert passes != [];
    var k := |passes| - 1;
    PassesLast(env, turn, StartOf(turn, request, provider, now), passes, k, shared);
    PassLasts(env, turn, passes[k].before, passes[k].exec, shared);
  }

  /** With or without a prompt, the recovery can only read out of range at the first overflow of a
      turn; a request it has once compacted is never too short again. */
  lemma OutOfRangeOnlyFirst(env: Environment, turn: Turn, request: seq<Message>, provider: Endpoint, now: nat,
                            passes: seq<Pass>, result: TurnResult)
    requires Proper(request)
    requires TurnOf(env, turn, StartOf(turn, request, provider, now), passes, result) && result == OutOfRange
    ensures passes != [] && passes[|passes| - 1].before.overflows == 0
    ensures |passes[|passes| - 1].exec.sent| < 2 && passes[|passes| - 1].exec.outcome == Failed(ContextOverflow)
  {
    hide AgentTurns.Begun, AfterPass, Proper;
    LastPassLasts(env, turn, request, provider, now, passes, result, false);
    OutOfRangeIff(env, turn, StartOf(turn, request, provider, now), passes, result);
  }

  // ---------------------------------------------------------------------
  // Requests in which only the user has messages
  // ---------------------------------------------------------------------

  lemma UsersRepair(ms: seq<Message>)
    requires !HasOther(ms)
    ensures !HasOther(RepairFrom({}, ms))
  {
    hide HasOther, RepairOne, IsOther;
    if ms != [] {
      var one, rest := RepairOne({}, ms[0], NextResultIds(ms[1..])), RepairFrom({}, ms[1..]);
      ContentCons(ms);
      UsersRepair(ms[1..]);
      UserRepairedAlone(ms[0], NextResultIds(ms[1..]));
      OtherConcat(one, rest);
    }
  }

  lemma UserRepairedAlone(m: Message, answered: set<string>)
    requires !IsOther(m)
    ensures PendingIds(m) == {} && !HasOther(RepairOne({}, m, answered))
  {
  }

  lemma {:induction false} UsersCollapse(ms: seq<Message>)
    requires !HasOther(ms)
    ensures !HasOther(Collapse(ms))
    decreases |ms|
  {
    hide HasOther;
    if ms != [] {
      ContentCons(ms);
      UsersCollapse(ms[1..]);
      Cons(ms[0], Collapse(ms[1..]));
      ContentCons(Collapse(ms));
    }
  }

  /** All of them become one message. */
  lemma {:induction false} UsersMerge(rule: StampRule, ms: seq<Message>)
    requires !HasOther(ms)
    ensures |Merge(User, rule, ms)| <= 1 && !HasOther(Merge(User, rule, ms))
    decreases |ms|
  {
    hide HasOther;
    if |ms| >= 2 {
      var j := Join(ms[0], ms[1], rule);
      ContentCons(ms);
      ContentCons(ms[1..]);
      assert ms[1..][0] == ms[1] && ms[1..][1..] == ms[2..];
      Cons(j, ms[2..]);
      ContentCons([j] + ms[2..]);
      UsersMerge(rule, [j] + ms[2..]);
    }
  }

  lemma OneUserUntouched(ms: seq<Message>)
    requires |ms| <= 1 && !HasOther(ms)
    ensures IsTrimmed(ms, ms) && AddHint(ms, TrailingReplayNames(ms), REPLAY_HINT) == ms
    ensures |FixAnthropic(ms)| <= 1
  {
    assert ms != [] && HasWords(ms[0]) ==> !OnlyResults(ms[0]);
    assert !TrimApplies(ms);
    assert |Strip(ms)| <= 1 && |WithContent(Strip(ms))| <= 1;
  }

  /** Anthropic can only be sent one message. */
  lemma UsersShrink(validator: bool, ms: seq<Message>) returns (sent: seq<Message>)
    requires !HasOther(ms)
    ensures |sent| <= 1 && IsSanitized(Provider.Provider("anthropic"), validator, ms, sent)
  {
    hide HasOther, IsTrimmed, AddHint, Repair, Collapse, Merge, TrailingReplayNames;
    RepairIs(ms);
    UsersRepair(ms);
    UsersCollapse(Repair(ms));
    UsersMerge(FirstStamp, Collapse(Repair(ms)));
    OneUserUntouched(Merged(ms));
    sent := Finish(Provider.Provider("anthropic"), validator, Merged(ms));
  }

  /** Every provider call overflows, and nobody stops the turn. */
  function Overflowing(): Environment {
    Environment(t => false, t => Error(ContextOverflow), t => NoEndpoint, (t, call) => Returned(""))
  }

  lemma UsersOverflow(turn: Turn, request: seq<Message>) returns (passes: seq<Pass>)
    requires !HasOther(request) && turn.maxIterations > 0
    ensures TurnOf(Overflowing(), turn, StartOf(turn, request, Endpoint(0, "anthropic"), 0), passes, OutOfRange)
  {
    hide HasOther, IsSanitized;
    var anthropic := Endpoint(0, "anthropic");
    var start := StartOf(turn, request, anthropic, 0);
    var sent := UsersShrink(turn.settings.validator, request);
    var call := Attempt(2, 0, 0, anthropic, sent, Error(ContextOverflow));
    var x := Execution(sent, anthropic, Failed(ContextOverflow), 3, [call]);
    assert Executed(Overflowing(), turn.settings, request, anthropic, 1, x);
    var pass := Pass(start, x);
    AgentTurns.NotBegun(Overflowing(), turn, start);
    AgentTurns.BegunSnoc(Overflowing(), turn, start, [], pass);
    passes := [] + [pass];
  }

  /** Some turn from this request reads out of range. */
  ghost predicate MayReadOutOfRange(turn: Turn, request: seq<Message>) {
    exists env, provider: Endpoint, now, passes ::
      provider.Endpoint? && TurnOf(env, turn, StartOf(turn, request, provider, now), passes, OutOfRange)
  }

  /** Exactly the requests in which someone besides the user has a message, a system prompt for one,
      are safe from it, whatever providers, tools, errors and stops a turn meets. */
  lemma NeverOutOfRangeIff(turn: Turn, request: seq<Message>)
    requires Proper(request)
    ensures !MayReadOutOfRange(turn, request) <==> HasOther(request) || turn.maxIterations <= 0
  {
    hide AgentTurns.Begun, AfterPass, Proper, HasOther;
    if HasOther(request) || turn.maxIterations <= 0 {
      forall env, provider: Endpoint, now, passes
        ensures !TurnOf(env, turn, StartOf(turn, request, provider, now), passes, OutOfRange)
      {
        NoSuchTurn(env, turn, request, provider, now, passes);
      }
    } else {
      var passes := UsersOverflow(turn, request);
    }
  }

  lemma NoSuchTurn(env: Environment, turn: Turn, request: seq<Message>, provider: Endpoint, now: nat, passes: seq<Pass>)
    requires Proper(request) && (HasOther(request) || turn.maxIterations <= 0)
    ensures !TurnOf(env, turn, StartOf(turn, request, provider, now), passes, OutOfRange)
  {
    hide AfterPass, Proper, HasOther;
    if TurnOf(env, turn, StartOf(turn, request, provider, now), passes, OutOfRange) {
      LastPassLasts(env, turn, request, provider, now, passes, OutOfRange, HasOther(request));
      PassAt(env, turn, StartOf(turn, request, provider, now), passes, 0);
    }
  }

  // ---------------------------------------------------------------------
  // Other requests
  // ---------------------------------------------------------------------

  function Dangling(): Message {
    Message(User, [MakeToolResult("a", "")], "")
  }

  /** The first call overflows; the second one fails over to Anthropic. */
  function SwitchingToAnthropic(): Environment {
    Environment(t => false, t => if t == 5 then Error(AuthError) else Error(ContextOverflow),
                t => Endpoint(1, "anthropic"), (t, call) => Returned(""))
  }

  lemma DanglingGone(answered: set<string>)
    ensures RepairOne({}, Dangling(), answered) == []
  {
    var b := Dangling().content[0];
    assert !ResultKept(b, {}) && Dangling().content[1..] == [];
    assert KeepResults([b], {}) == [] + KeepResults([], {});
  }

  lemma {:induction false} DanglingRepaired(ms: seq<Message>)
    requires forall m :: m in ms ==> m == Dangling()
    ensures RepairFrom({}, ms) == []
  {
    hide RepairOne;
    if ms != [] {
      assert ms[0] in ms;
      assert PendingIds(Dangling()) == {};
      DanglingGone(NextResultIds(ms[1..]));
      assert forall m :: m in ms[1..] ==> m in ms;
      DanglingRepaired(ms[1..]);
    }
  }

  lemma DanglingRemoved(notice: Message)
    requires notice.role.System?
    ensures IsSanitized(Provider.Provider("anthropic"), false, [notice, Dangling(), Dangling()], [notice])
  {
    var ms := [notice, Dangling(), Dangling()];
    assert ms[1..] == [Dangling(), Dangling()];
    DanglingRepaired(ms[1..]);
    assert Repair(ms) == [notice] by {
      hide Dangling;
      assert RepairOne({}, notice, NextResultIds(ms[1..])) == [notice];
    }
    LoneSystem([notice]);
  }

  lemma LoneSystem(ms: seq<Message>)
    requires |ms| == 1 && ms[0].role.System?
    ensures Merge(User, FirstStamp, Collapse(ms)) == ms && IsTrimmed(ms, ms) && TrailingReplayNames(ms) == {}
  {
    assert Collapse(ms) == [ms[0]] + Collapse(ms[1..]);
    assert !TrimApplies(ms);
  }

  /** A request that ends in results nobody asked for may be too short after it has been compacted. */
  lemma DanglingResultsOverflowLater(turn: Turn) returns (passes: seq<Pass>)
    requires turn.systemPrompt == "" && turn.maxIterations > 0 && turn.settings == Settings(true, false, 0)
    ensures TurnOf(SwitchingToAnthropic(), turn,
                   StartOf(turn, [Dangling(), Dangling()], Endpoint(0, "openai"), 0), passes, OutOfRange)
    ensures passes != [] && passes[|passes| - 1].before.overflows == 1
  {
    hide IsSanitized;
    var env, cfg := SwitchingToAnthropic(), turn.settings;
    var openai, anthropic := Endpoint(0, "openai"), Endpoint(1, "anthropic");
    var request, notice := [Dangling(), Dangling()], TextMessage(System, OVERFLOW_NOTICE);
    var start := StartOf(turn, request, openai, 0);
    var first := Pass(start, Execution(request, openai, Failed(ContextOverflow), 3,
                                       [Attempt(2, 0, 0, openai, request, Error(ContextOverflow))]));
    SentToOpenAi(request);
    assert Executed(env, cfg, request, openai, 1, first.exec);
    AgentTurns.NotBegun(env, turn, start);
    AgentTurns.BegunSnoc(env, turn, start, [], first);
    var longer := [notice] + request;
    assert Compacted(turn, request) == longer;
    var second := start.(messages := longer, overflows := 1, forced := Forced(start), now := 3);
    var calls := [Attempt(5, 0, 0, openai, longer, Error(AuthError)),
                  Attempt(9, 1, 0, anthropic, [notice], Error(ContextOverflow))];
    SentToOpenAi(longer);
    DanglingRemoved(notice);
    assert longer == [notice, Dangling(), Dangling()];
    assert LinkedAt(env, cfg, calls, 1);
    var x := Execution([notice], anthropic, Failed(ContextOverflow), 10, calls);
    assert Executed(env, cfg, longer, openai, 4, x);
    AgentTurns.BegunSnoc(env, turn, start, [] + [first], Pass(second, x));
    passes := [] + [first] + [Pass(second, x)];
  }

  lemma SentToOpenAi(ms: seq<Message>)
    ensures IsSanitized(Provider.Provider("openai"), false, ms, ms)
  {
  }
}
