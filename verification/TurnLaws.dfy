/** What one pass of the agent loop does with the provider's reply, and how a turn ends. */
module TurnLaws {
  import opened Seqs
  import opened Messages
  import opened ReplayTrim
  import opened ReplayHints
  import opened RequestSanitizer
  import opened ProviderRetry
  import opened AgentTurns
  import opened AgentLaws

  // ---------------------------------------------------------------------
  // Tool rounds
  // ---------------------------------------------------------------------

  /** The text for call i: its tool's, or what it threw, unless a stop was seen before it or before an
      earlier call. */
  ghost predicate IsToolText(env: Environment, call: ToolCall, now: nat, i: nat, text: string) {
    if exists j: nat :: j <= i && env.stop(now + 2 * j) then text == "[Tool execution aborted by user]"
    else
      match env.tool(now + 2 * i + 1, call)
      case Returned(returned) => text == returned
      case Threw(what) => text == "Error executing tool: " + what
  }

  /** One text per call, in the calls' order, each from its own call. */
  lemma ToolTextsAre(env: Environment, calls: seq<ToolCall>, now: nat)
    ensures var texts := ToolTexts(env, calls, now);
            |texts| == |calls| && forall i: nat :: i < |calls| ==> IsToolText(env, calls[i], now, i, texts[i])
  {
    forall i: nat | i < |calls| ensures IsToolText(env, calls[i], now, i, ToolTexts(env, calls, now)[i]) {
      assert AbortedBy(env, now, i) <==> exists j: nat :: j <= i && env.stop(now + 2 * j);
    }
  }

  /** The messages of a tool round: the assistant's, with its text, if any, and one block per call, and
      the user's, with one result per call, its text truncated. */
  ghost predicate IsToolRound(env: Environment, turn: Turn, response: Response, now: nat, round: seq<Message>) {
    var calls, said := response.toolCalls, if response.content == "" then 0 else 1;
    && |round| == 2 && round[0].role == Assistant && round[1].role == User
    && |round[0].content| == said + |calls| && |round[1].content| == |calls|
    && (response.content != "" ==> round[0].content[0] == MakeText(response.content))
    && forall i: nat :: i < |calls| ==>
         && round[0].content[said + i] == MakeToolUse(calls[i].id, calls[i].name, calls[i].arguments)
         && IsToolResult(env, turn, calls[i], now, i, round[1].content[i])
  }

  ghost predicate IsToolResult(env: Environment, turn: Turn, call: ToolCall, now: nat, i: nat, result: Block) {
    exists text :: IsToolText(env, call, now, i, text) && result == MakeToolResult(call.id, turn.truncate(text))
  }

  lemma ExchangeShape(response: Response, texts: seq<string>)
    requires |texts| == |response.toolCalls|
    ensures var e, said := Exchange(response, texts), if response.content == "" then 0 else 1;
            && |e| == 2 && e[0].role == Assistant && e[1].role == User
            && |e[0].content| == said + |texts| && |e[1].content| == |texts|
            && (response.content != "" ==> e[0].content[0] == MakeText(response.content))
            && said == |Said(response)|
  {
  }

  lemma ExchangeIsRound(env: Environment, turn: Turn, response: Response, now: nat)
    ensures IsToolRound(env, turn, response, now,
                        Exchange(response, Truncated(turn, ToolTexts(env, response.toolCalls, now))))
  {
    hide IsToolText, Exchange, ToolTexts, Said, MakeToolUse, MakeToolResult;
    var calls := response.toolCalls;
    var texts := ToolTexts(env, calls, now);
    ToolTextsAre(env, calls, now);
    var cut := Truncated(turn, texts);
    ExchangeShape(response, cut);
    var round := Exchange(response, cut);
    var said := if response.content == "" then 0 else 1;
    forall i: nat | i < |calls|
      ensures round[0].content[said + i] == MakeToolUse(calls[i].id, calls[i].name, calls[i].arguments)
      ensures IsToolResult(env, turn, calls[i], now, i, round[1].content[i])
    {
      ExchangeBlocks(Round(response, cut), i);
      assert IsToolText(env, calls[i], now, i, texts[i]);
    }
  }

  function CallsOf(p: Pass): seq<ToolCall> {
    if p.exec.outcome.Answered? then p.exec.outcome.response.toolCalls else []
  }

  /** A pass whose reply calls tools adds one tool round to what is sent next and to what the turn
      returns. */
  lemma ToolsAnswered(env: Environment, turn: Turn, p: Pass) returns (round: seq<Message>)
    requires CallsOf(p) != []
    ensures IsToolRound(env, turn, p.exec.outcome.response, p.exec.now, round)
    ensures var r, stopped := AfterPass(env, turn, p.before, p.exec), env.stop(p.exec.now + 2 * |CallsOf(p)|);
            && (if stopped then r.Leave? else r.Continue?)
            && r.state.messages == p.exec.sent + round && r.state.added == p.before.added + round
            && r.state.iterations == p.before.iterations + (if stopped then 0 else 1)
  {
    hide Exchange, ToolTexts, Truncated, IsToolRound;
    var response := p.exec.outcome.response;
    ExchangeIsRound(env, turn, response, p.exec.now);
    round := Exchange(response, Truncated(turn, ToolTexts(env, response.toolCalls, p.exec.now)));
    assert |Truncated(turn, ToolTexts(env, response.toolCalls, p.exec.now))| == |response.toolCalls|;
  }

  // ---------------------------------------------------------------------
  // Texts and the guards
  // ---------------------------------------------------------------------

  /** The pass is answered with this text and no calls. */
  predicate SaysOnly(p: Pass, text: string) {
    p.exec.outcome == Answered(Response(text, [])) && text != ""
  }

  predicate DefersLookup(turn: Turn, p: Pass, text: string) {
    turn.lookupIntent && !p.before.lookupRetry && turn.deferred(text)
  }

  /** The request replays a web search, and the text dumps raw results. */
  ghost predicate DumpsSearch(turn: Turn, p: Pass, text: string) {
    var sent := p.exec.sent;
    && !p.before.searchRetry && turn.rawDump(text)
    && |sent| >= 2 && sent[|sent| - 1].role.User?
    && NearestReplays(sent[..|sent| - 1], sent[|sent| - 1].content, "web_search")
  }

  function Told(role: Role, text: string): Message {
    Message(role, [MakeText(text)], "")
  }

  /** A text that defers the lookup is answered with the lookup correction, once; any other one that
      dumps raw search results with the search correction, once; and every other text ends the turn. */
  lemma TextAnswered(env: Environment, turn: Turn, p: Pass, text: string)
    requires SaysOnly(p, text)
    ensures var r := AfterPass(env, turn, p.before, p.exec);
            if DefersLookup(turn, p, text) || DumpsSearch(turn, p, text) then
              && r.Continue? && r.state.iterations == p.before.iterations + 1 && r.state.added == p.before.added
              && (r.state.lookupRetry <==> p.before.lookupRetry || DefersLookup(turn, p, text))
              && (r.state.searchRetry <==> p.before.searchRetry || !DefersLookup(turn, p, text))
              && r.state.messages == p.exec.sent + [Told(Assistant, text)] +
                   [Told(User, if DefersLookup(turn, p, text) then turn.lookupCorrection else turn.searchCorrection)]
            else r == Over(Completed(p.before.added + [Told(Assistant, text)]))
  {
    hide TrailingReplayNames, NearestReplays;
    ReplayNamesIff(p.exec.sent, "web_search");
    assert SearchGuardFires(turn, Called(p.before, p.exec), p.exec.sent, text) <==> DumpsSearch(turn, p, text);
  }

  // ---------------------------------------------------------------------
  // The overflow recovery
  // ---------------------------------------------------------------------

  /** What the recovery leaves of a request: prompt, if any, notice, and the newer half, but at least
      two messages. */
  ghost predicate IsRecovered(turn: Turn, sent: seq<Message>, left: seq<Message>) {
    exists older, kept ::
      && sent == older + kept && (|kept| == 2 || 4 <= 2 * |kept| <= |sent|) && |older| <= |kept| + 1
      && (|kept| == 2 ==> |sent| < 6)
      && left == (if turn.systemPrompt == "" then [] else [Told(System, turn.systemPrompt)]) +
                 [Told(System, "[Context overflow recovery: older messages removed.]")] + kept
  }

  predicate Overflows(p: Pass) {
    p.exec.outcome == Failed(ContextOverflow)
  }

  /** The first three overflows of a turn are recovered from, if there are messages enough, without
      using up an iteration; later ones are raised. */
  lemma OverflowAnswered(env: Environment, turn: Turn, p: Pass)
    requires Overflows(p)
    ensures var r := AfterPass(env, turn, p.before, p.exec);
            if p.before.overflows >= 3 then r == Over(Raised(Failed(ContextOverflow)))
            else if |p.exec.sent| < 2 then r == Over(OutOfRange)
            else r.Continue? && IsRecovered(turn, p.exec.sent, r.state.messages) &&
                 r.state.overflows == p.before.overflows + 1 && r.state.iterations == p.before.iterations
  {
    var sent := p.exec.sent;
    if p.before.overflows < 3 && |sent| >= 2 {
      var from := |sent| - KeptOnOverflow(|sent|);
      assert sent == sent[..from] + sent[from..];
      assert Compacted(turn, sent) ==
             (if turn.systemPrompt == "" then [] else [Told(System, turn.systemPrompt)]) +
             [Told(System, "[Context overflow recovery: older messages removed.]")] + sent[from..];
    }
  }

  // ---------------------------------------------------------------------
  // How a turn ends
  // ---------------------------------------------------------------------

  predicate AnsweredAt(p: Pass) {
    p.exec.outcome.Answered?
  }

  function AnswerCount(passes: seq<Pass>): nat {
    if passes == [] then 0
    else AnswerCount(passes[..|passes| - 1]) + if AnsweredAt(passes[|passes| - 1]) then 1 else 0
  }

  lemma AnswerCounted(env: Environment, turn: Turn, p: Pass)
    requires AfterPass(env, turn, p.before, p.exec).Continue?
    ensures AfterPass(env, turn, p.before, p.exec).state.iterations ==
            p.before.iterations + if AnsweredAt(p) then 1 else 0
  {
    hide Exchange, ToolTexts, Truncated, Compacted;
  }

  lemma {:induction false} IterationsAre(env: Environment, turn: Turn, start: State, passes: seq<Pass>, k: nat)
    requires AgentTurns.Begun(env, turn, start, passes) && k < |passes| && start.iterations == 0
    ensures passes[k].before.iterations == AnswerCount(passes[..k])
  {
    hide AgentTurns.Begun, AfterPass, Executed, Running;
    PassAt(env, turn, start, passes, k);
    if k > 0 {
      IterationsAre(env, turn, start, passes, k - 1);
      AnswerCounted(env, turn, passes[k - 1]);
      assert passes[..k][..k - 1] == passes[..k - 1] && passes[..k][k - 1] == passes[k - 1];
    }
  }

  /** The last pass is answered with neither text nor calls. */
  predicate SaysNothing(p: Pass) {
    p.exec.outcome.Answered? && p.exec.outcome.response == Response("", [])
  }

  /** A turn that nobody stops gives up exactly when a reply says nothing, or when max_iterations
      replies have been used and the last one does not conclude it. */
  lemma GivesUpIff(env: Environment, turn: Turn, request: seq<Message>, provider: Endpoint, now: nat,
                   passes: seq<Pass>, result: TurnResult)
    requires TurnOf(env, turn, StartOf(turn, request, provider, now), passes, result) && forall t :: !env.stop(t)
    ensures result == TooManyIterations <==>
            || (passes == [] && turn.maxIterations <= 0)
            || (passes != [] && SaysNothing(passes[|passes| - 1]))
            || (passes != [] && AnsweredAt(passes[|passes| - 1]) && !Concluding(turn, passes[|passes| - 1]) &&
                AnswerCount(passes) >= turn.maxIterations)
  {
    hide AgentTurns.Begun, Executed, ToolTexts, Exchange, Truncated, Compacted, TrailingReplayNames;
    if passes != [] {
      var n := |passes| - 1;
      var start := StartOf(turn, request, provider, now);
      PassAt(env, turn, start, passes, n);
      IterationsAre(env, turn, start, passes, n);
    }
  }

  /** A failure ends the turn, and is what it ends with, exactly when it is the last pass's and not an
      overflow that is recovered from. */
  lemma RaisedIff(env: Environment, turn: Turn, start: State, passes: seq<Pass>, result: TurnResult)
    requires TurnOf(env, turn, start, passes, result)
    ensures result.Raised? <==>
            passes != [] &&
            var p := passes[|passes| - 1];
            !AnsweredAt(p) && !(Overflows(p) && p.before.overflows < 3)
    ensures result.Raised? ==> result.outcome == passes[|passes| - 1].exec.outcome
  {
    hide AgentTurns.Begun, ToolTexts, Exchange, Truncated, Compacted;
  }
}
