/** One turn of the agent: handle_tool_calls and the loop of ProcessMessage, from the request that
    has been built to the messages returned. The loop is specified by the passes it makes, each of
    which follows from the one before. */
module AgentTurns {
  import opened Seqs
  import opened Messages
  import opened RequestSanitizer
  import opened ReplayTrim
  import opened ProviderRetry

  const ABORTED := "[Tool execution aborted by user]"
  const TOOL_ERROR := "Error executing tool: "
  const STOPPED := "[Agent turn stopped by user]"
  const OVERFLOW_NOTICE := "[Context overflow recovery: older messages removed.]"
  const OVERFLOW_RETRIES := 3

  // ---------------------------------------------------------------------
  // handle_tool_calls
  // ---------------------------------------------------------------------

  /** The stop flag was seen set before call i or an earlier one. */
  predicate AbortedBy(env: Environment, now: nat, i: nat) {
    exists j: nat :: j <= i && env.stop(now + 2 * j)
  }

  function Rendered(outcome: ToolOutcome): string {
    match outcome
    case Returned(text) => text
    case Threw(what) => TOOL_ERROR + what
  }

  function ToolText(env: Environment, call: ToolCall, now: nat, i: nat): string {
    if AbortedBy(env, now, i) then ABORTED else Rendered(env.tool(now + 2 * i + 1, call))
  }

  function ToolTexts(env: Environment, calls: seq<ToolCall>, now: nat): (r: seq<string>)
    ensures |r| == |calls|
  {
    seq(|calls|, i requires 0 <= i < |calls| => ToolText(env, calls[i], now, i))
  }

  method HandleToolCalls(env: Environment, calls: seq<ToolCall>, now: nat) returns (results: seq<string>)
    ensures results == ToolTexts(env, calls, now)
  {
    results := [];
    for i := 0 to |calls|
      invariant |results| == i
      invariant forall k :: 0 <= k < i ==> results[k] == ToolText(env, calls[k], now, k)
      invariant forall j: nat :: j < i ==> !env.stop(now + 2 * j)
    {
      if env.stop(now + 2 * i) {
        while |results| < |calls|
          invariant i <= |results| <= |calls|
          invariant forall k :: 0 <= k < |results| ==> results[k] == ToolText(env, calls[k], now, k)
        {
          results := results + [ABORTED];
        }
        break;
      }
      results := results + [Rendered(env.tool(now + 2 * i + 1, calls[i]))];
    }
  }

  // ---------------------------------------------------------------------
  // The turn
  // ---------------------------------------------------------------------

  /** What is fixed during a turn. The judgements on texts are parameters: whether the user's
      message has a lookup intent, whether a reply merely defers the lookup or denies a result,
      whether it dumps raw search results, and how a tool result is cut. */
  datatype Turn = Turn(settings: Settings, maxIterations: int, systemPrompt: string,
                       lookupIntent: bool, deferred: string -> bool, rawDump: string -> bool,
                       truncate: string -> string, lookupCorrection: string, searchCorrection: string)

  /** The variables of the loop; `forced` is tool_choice "any", `added` the messages to return. */
  datatype State = State(messages: seq<Message>, endpoint: Endpoint, iterations: nat, overflows: nat,
                         forced: bool, lookupRetry: bool, searchRetry: bool, added: seq<Message>, now: nat)

  datatype TurnResult =
    | Completed(messages: seq<Message>)
    | Raised(outcome: Outcome)
    | TooManyIterations
    | OutOfRange  // the overflow recovery copies more messages than there are

  datatype StepResult = Continue(state: State) | Leave(state: State) | Over(result: TurnResult)

  function AssistantText(text: string): Message {
    Message(Assistant, [MakeText(text)], "")
  }

  function UserText(text: string): Message {
    Message(User, [MakeText(text)], "")
  }

  function CallBlocks(calls: seq<ToolCall>): (r: seq<Block>)
    ensures |r| == |calls|
  {
    seq(|calls|, i requires 0 <= i < |calls| => MakeToolUse(calls[i].id, calls[i].name, calls[i].arguments))
  }

  function ResultBlocks(calls: seq<ToolCall>, texts: seq<string>): (r: seq<Block>)
    requires |texts| == |calls|
    ensures |r| == |calls|
  {
    seq(|calls|, i requires 0 <= i < |calls| => MakeToolResult(calls[i].id, texts[i]))
  }

  function Said(response: Response): seq<Block> {
    if response.content == "" then [] else [MakeText(response.content)]
  }

  /** The assistant message with its calls and the user message with their results. */
  function Exchange(response: Response, texts: seq<string>): seq<Message>
    requires |texts| == |response.toolCalls|
  {
    [Message(Assistant, Said(response) + CallBlocks(response.toolCalls), ""),
     Message(User, ResultBlocks(response.toolCalls, texts), "")]
  }

  function Truncated(turn: Turn, texts: seq<string>): (r: seq<string>)
    ensures |r| == |texts|
  {
    seq(|texts|, i requires 0 <= i < |texts| => turn.truncate(texts[i]))
  }

  function KeptOnOverflow(size: nat): nat {
    if size / 2 < 2 then 2 else size / 2
  }

  function Prompt(turn: Turn): seq<Message> {
    if turn.systemPrompt == "" then [] else [TextMessage(System, turn.systemPrompt)]
  }

  function Compacted(turn: Turn, ms: seq<Message>): seq<Message>
    requires |ms| >= 2
  {
    Prompt(turn) + [TextMessage(System, OVERFLOW_NOTICE)] + ms[|ms| - KeptOnOverflow(|ms|)..]
  }

  /** The tool choice sent in a pass: reset after the first reply unless a lookup retry was forced. */
  function Forced(s: State): bool {
    s.forced && !(s.iterations > 0 && !s.lookupRetry)
  }

  function LookupGuardFires(turn: Turn, s: State, content: string): bool {
    !s.lookupRetry && turn.lookupIntent && turn.deferred(content)
  }

  function SearchGuardFires(turn: Turn, s: State, sent: seq<Message>, content: string): bool {
    !s.searchRetry && "web_search" in TrailingReplayNames(sent) && turn.rawDump(content)
  }

  /** s after the provider has been called: its request as sent, and the time. */
  function Called(s: State, x: Execution): State {
    s.(messages := x.sent, endpoint := x.endpoint, forced := Forced(s), now := x.now)
  }

  function AfterTools(env: Environment, turn: Turn, s: State, response: Response): StepResult {
    var texts := Truncated(turn, ToolTexts(env, response.toolCalls, s.now));
    var done := s.now + 2 * |texts|;
    var t := s.(messages := s.messages + Exchange(response, texts), added := s.added + Exchange(response, texts),
                now := done + 1);
    if env.stop(done) then Leave(t) else Continue(t.(iterations := t.iterations + 1))
  }

  function Corrected(s: State, content: string, correction: string): State {
    s.(messages := s.messages + [AssistantText(content), UserText(correction)], iterations := s.iterations + 1)
  }

  function AfterText(turn: Turn, s: State, content: string): StepResult {
    if LookupGuardFires(turn, s, content) then
      Continue(Corrected(s, content, turn.lookupCorrection).(lookupRetry := true))
    else if SearchGuardFires(turn, s, s.messages, content) then
      Continue(Corrected(s, content, turn.searchCorrection).(searchRetry := true))
    else Over(Completed(s.added + [AssistantText(content)]))
  }

  function AfterAnswer(env: Environment, turn: Turn, s: State, response: Response): StepResult {
    if response.toolCalls != [] then AfterTools(env, turn, s, response)
    else if response.content != "" then AfterText(turn, s, response.content)
    else Leave(s)
  }

  function AfterOverflow(turn: Turn, s: State): StepResult {
    if |s.messages| < 2 then Over(OutOfRange)
    else Continue(s.(messages := Compacted(turn, s.messages), overflows := s.overflows + 1))
  }

  function AfterPass(env: Environment, turn: Turn, before: State, x: Execution): StepResult {
    var s := Called(before, x);
    match x.outcome
    case Answered(response) => AfterAnswer(env, turn, s, response)
    case Failed(kind) =>
      if kind.ContextOverflow? && s.overflows < OVERFLOW_RETRIES then AfterOverflow(turn, s)
      else Over(Raised(x.outcome))
    case _ => Over(Raised(x.outcome))
  }

  predicate Running(env: Environment, turn: Turn, s: State) {
    s.iterations < turn.maxIterations && !env.stop(s.now)
  }

  function AfterLoop(env: Environment, s: State): TurnResult {
    if env.stop(s.now + 1) then Completed(s.added + [AssistantText(STOPPED)]) else TooManyIterations
  }

  /** What the turn comes to when the loop does not go on. */
  predicate Concludes(env: Environment, turn: Turn, r: StepResult, result: TurnResult) {
    match r
    case Continue(s) => !Running(env, turn, s) && result == AfterLoop(env, s)
    case Leave(s) => result == AfterLoop(env, s)
    case Over(ended) => result == ended
  }

  /** One pass of the loop: the state it starts in and how its call to the provider went. */
  datatype Pass = Pass(before: State, exec: Execution)

  ghost predicate IsPass(env: Environment, turn: Turn, r: StepResult, p: Pass) {
    && r == Continue(p.before)
    && Running(env, turn, p.before)
    && Executed(env, turn.settings, p.before.messages, p.before.endpoint, p.before.now + 1, p.exec)
  }

  function Latest(env: Environment, turn: Turn, start: State, passes: seq<Pass>): StepResult {
    if passes == [] then Continue(start)
    else AfterPass(env, turn, passes[|passes| - 1].before, passes[|passes| - 1].exec)
  }

  ghost predicate IsPassAt(env: Environment, turn: Turn, start: State, passes: seq<Pass>, k: nat)
    requires k < |passes|
  {
    IsPass(env, turn, Latest(env, turn, start, passes[..k]), passes[k])
  }

  /** The passes are those of a turn from this state, up to some point. */
  ghost predicate Begun(env: Environment, turn: Turn, start: State, passes: seq<Pass>) {
    forall k: nat :: k < |passes| ==> IsPassAt(env, turn, start, passes, k)
  }

  ghost predicate TurnOf(env: Environment, turn: Turn, start: State, passes: seq<Pass>, result: TurnResult) {
    Begun(env, turn, start, passes) && Concludes(env, turn, Latest(env, turn, start, passes), result)
  }

  lemma BegunSnoc(env: Environment, turn: Turn, start: State, passes: seq<Pass>, p: Pass)
    requires Begun(env, turn, start, passes) && IsPass(env, turn, Latest(env, turn, start, passes), p)
    ensures Begun(env, turn, start, passes + [p])
    ensures Latest(env, turn, start, passes + [p]) == AfterPass(env, turn, p.before, p.exec)
  {
    hide AfterPass, IsPass;
    var more := passes + [p];
    forall k: nat | k < |more| ensures IsPassAt(env, turn, start, more, k) {
      assert more[..k] == passes[..k];
      if k < |passes| {
        assert IsPassAt(env, turn, start, passes, k);
      } else {
        Whole(passes);
      }
    }
  }

  /** The two messages a round of tool calls adds. */
  method RunTools(env: Environment, turn: Turn, response: Response, now: nat) returns (exchange: seq<Message>)
    ensures exchange == Exchange(response, Truncated(turn, ToolTexts(env, response.toolCalls, now)))
  {
    var calls := response.toolCalls;
    var results := HandleToolCalls(env, calls, now);
    ghost var raw := results;
    for i := 0 to |results|
      invariant |results| == |raw| == |calls|
      invariant forall k :: 0 <= k < i ==> results[k] == turn.truncate(raw[k])
      invariant forall k :: i <= k < |results| ==> results[k] == raw[k]
    {
      results := results[i := turn.truncate(results[i])];
    }
    assert results == Truncated(turn, raw);
    var assistant: seq<Block> := [];
    if response.content != "" {
      assistant := [MakeText(response.content)];
    }
    var uses: seq<Block> := [];
    for i := 0 to |calls|
      invariant uses == CallBlocks(calls)[..i]
    {
      uses := uses + [MakeToolUse(calls[i].id, calls[i].name, calls[i].arguments)];
    }
    var answers: seq<Block> := [];
    for i := 0 to |calls|
      invariant answers == ResultBlocks(calls, results)[..i]
    {
      answers := answers + [MakeToolResult(calls[i].id, results[i])];
    }
    Whole(CallBlocks(calls));
    Whole(ResultBlocks(calls, results));
    return [Message(Assistant, assistant + uses, ""), Message(User, answers, "")];
  }

  method CompactOverflow(turn: Turn, messages: seq<Message>) returns (compacted: seq<Message>)
    requires |messages| >= 2
    ensures compacted == Compacted(turn, messages)
  {
    var keep := if |messages| / 2 < 2 then 2 else |messages| / 2;
    compacted := [];
    if turn.systemPrompt != "" {
      compacted := [TextMessage(System, turn.systemPrompt)];
    }
    compacted := compacted + [TextMessage(System, OVERFLOW_NOTICE)];
    ghost var head := compacted;
    var from := |messages| - keep;
    for i := from to |messages|
      invariant compacted == head + messages[from..i]
    {
      SliceSnoc(messages, from, i);
      Assoc(head, messages[from..i], [messages[i]]);
      compacted := compacted + [messages[i]];
    }
  }

  lemma EndpointStays(env: Environment, cfg: Settings, messages: seq<Message>, endpoint: Endpoint, now: nat,
                      x: Execution)
    requires Executed(env, cfg, messages, endpoint, now, x) && endpoint.Endpoint?
    ensures x.endpoint.Endpoint?
  {
    hide After;
    if x.calls != [] {
      EndpointsExist(env, cfg, messages, endpoint, now, x.calls, |x.calls| - 1);
    }
  }

  /** What the loop does with a response of the provider. */
  method TakeResponse(env: Environment, turn: Turn, s: State, response: Response) returns (r: StepResult)
    ensures r == AfterAnswer(env, turn, s, response)
  {
    hide TrailingReplayNames, Exchange, ToolTexts, Truncated;
    var messages, added, iterations := s.messages, s.added, s.iterations;
    if response.toolCalls != [] {
      var exchange := RunTools(env, turn, response, s.now);
      messages, added := messages + exchange, added + exchange;
      var now := s.now + 2 * |response.toolCalls|;
      if env.stop(now) {
        return Leave(s.(messages := messages, added := added, now := now + 1));
      }
      iterations := iterations + 1;
      return Continue(s.(messages := messages, added := added, now := now + 1, iterations := iterations));
    }
    if response.content != "" {
      var names := CollectTrailingReplayToolNames(messages);
      if !s.lookupRetry && turn.lookupIntent && turn.deferred(response.content) {
        messages := messages + [AssistantText(response.content), UserText(turn.lookupCorrection)];
        return Continue(s.(messages := messages, lookupRetry := true, iterations := iterations + 1));
      }
      if !s.searchRetry && "web_search" in names && turn.rawDump(response.content) {
        messages := messages + [AssistantText(response.content), UserText(turn.searchCorrection)];
        return Continue(s.(messages := messages, searchRetry := true, iterations := iterations + 1));
      }
      added := added + [AssistantText(response.content)];
      return Over(Completed(added));
    }
    return Leave(s);
  }

  method ProcessTurn(env: Environment, turn: Turn, request: seq<Message>, provider: Endpoint, start: nat)
    returns (result: TurnResult, passes: seq<Pass>)
    requires provider.Endpoint?
    ensures TurnOf(env, turn, StartOf(turn, request, provider, start), passes, result)
  {
    hide Begun, Executed, Compacted, AfterAnswer;
    var s := StartOf(turn, request, provider, start);
    ghost var first := s;
    passes := [];
    NotBegun(env, turn, first);
    while s.iterations < turn.maxIterations && !env.stop(s.now)
      invariant s.endpoint.Endpoint? && s.overflows <= OVERFLOW_RETRIES
      invariant Begun(env, turn, first, passes) && Latest(env, turn, first, passes) == Continue(s)
      decreases turn.maxIterations - s.iterations + OVERFLOW_RETRIES - s.overflows
    {
      var before := s;
      if s.iterations > 0 && !s.lookupRetry {
        s := s.(forced := false);
      }
      var x := ExecuteWithRetry(env, turn.settings, s.messages, s.endpoint, s.now + 1);
      EndpointStays(env, turn.settings, s.messages, s.endpoint, s.now + 1, x);
      BegunSnoc(env, turn, first, passes, Pass(before, x));
      passes := passes + [Pass(before, x)];
      s := s.(messages := x.sent, endpoint := x.endpoint, now := x.now);
      if x.outcome.Answered? {
        var r := TakeResponse(env, turn, s, x.outcome.response);
        AnswerCounts(env, turn, s, x.outcome.response);
        if r.Over? {
          return r.result, passes;
        }
        s := r.state;
        if r.Leave? {
          break;
        }
      } else if x.outcome == Failed(ContextOverflow) && s.overflows < OVERFLOW_RETRIES {
        if |s.messages| < 2 {
          return OutOfRange, passes;
        }
        var compacted := CompactOverflow(turn, s.messages);
        s := s.(messages := compacted, overflows := s.overflows + 1);
      } else {
        return Raised(x.outcome), passes;
      }
    }
    if env.stop(s.now + 1) {
      return Completed(s.added + [AssistantText(STOPPED)]), passes;
    }
    return TooManyIterations, passes;
  }

  /** A response that does not end the turn costs one iteration. */
  lemma AnswerCounts(env: Environment, turn: Turn, s: State, response: Response)
    ensures var r := AfterAnswer(env, turn, s, response);
            r.Continue? ==> r.state.iterations == s.iterations + 1 && r.state.overflows == s.overflows &&
                            r.state.endpoint == s.endpoint
  {
    hide TrailingReplayNames, Exchange, ToolTexts, Truncated;
  }

  function StartOf(turn: Turn, request: seq<Message>, provider: Endpoint, now: nat): State {
    State(request, provider, 0, 0, turn.lookupIntent, false, false, [], now)
  }

  lemma NotBegun(env: Environment, turn: Turn, start: State)
    ensures Begun(env, turn, start, [])
  {
  }
}
