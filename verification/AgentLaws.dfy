/** What every run of a turn guarantees. */
module AgentLaws {
  import opened Seqs
  import opened Messages
  import opened ProviderRetry
  import opened AgentTurns

  // ---------------------------------------------------------------------
  // Bounds
  // ---------------------------------------------------------------------

  /** Each pass that does not end the turn uses up an iteration or an overflow retry. */
  lemma PassCounts(env: Environment, turn: Turn, before: State, x: Execution)
    requires AfterPass(env, turn, before, x).Continue? && before.overflows <= OVERFLOW_RETRIES
    ensures var s := AfterPass(env, turn, before, x).state;
            s.iterations + s.overflows == before.iterations + before.overflows + 1 && s.overflows <= OVERFLOW_RETRIES
  {
    hide AfterAnswer, Compacted;
    if x.outcome.Answered? {
      AnswerCounts(env, turn, Called(before, x), x.outcome.response);
    }
  }

  /** The step that pass k starts from. */
  lemma PassAt(env: Environment, turn: Turn, start: State, passes: seq<Pass>, k: nat)
    requires AgentTurns.Begun(env, turn, start, passes) && k < |passes|
    ensures Running(env, turn, passes[k].before)
    ensures Executed(env, turn.settings, passes[k].before.messages, passes[k].before.endpoint,
                     passes[k].before.now + 1, passes[k].exec)
    ensures k == 0 ==> passes[0].before == start
    ensures k > 0 ==> AfterPass(env, turn, passes[k - 1].before, passes[k - 1].exec) == Continue(passes[k].before)
  {
    hide AfterPass, Executed, Running;
    assert IsPassAt(env, turn, start, passes, k);
    if k > 0 {
      assert passes[..k][k - 1] == passes[k - 1];
    }
  }

  lemma {:induction false} PassNumber(env: Environment, turn: Turn, start: State, passes: seq<Pass>, k: nat)
    requires AgentTurns.Begun(env, turn, start, passes) && k < |passes|
    requires start.iterations == start.overflows == 0
    ensures passes[k].before.iterations + passes[k].before.overflows == k
    ensures passes[k].before.overflows <= OVERFLOW_RETRIES
  {
    hide AfterPass, Executed, AgentTurns.Begun;
    PassAt(env, turn, start, passes, k);
    if k > 0 {
      PassNumber(env, turn, start, passes, k - 1);
      PassCounts(env, turn, passes[k - 1].before, passes[k - 1].exec);
    }
  }

  function TotalCalls(passes: seq<Pass>): nat {
    if passes == [] then 0 else TotalCalls(passes[..|passes| - 1]) + |passes[|passes| - 1].exec.calls|
  }

  lemma {:induction false} TotalCallsBounded(env: Environment, turn: Turn, start: State, passes: seq<Pass>)
    requires AgentTurns.Begun(env, turn, start, passes)
    ensures TotalCalls(passes) <= |passes| * (MAX_FAILOVER_ATTEMPTS * Tries(turn.settings))
  {
    hide AgentTurns.IsPass, Executed;
    if passes != [] {
      var k := |passes| - 1;
      forall j: nat | j < k ensures IsPassAt(env, turn, start, passes[..k], j) {
        assert IsPassAt(env, turn, start, passes, j);
        assert passes[..k][..j] == passes[..j];
      }
      TotalCallsBounded(env, turn, start, passes[..k]);
      PassAt(env, turn, start, passes, k);
      CallsBounded(env, turn.settings, passes[k].before.messages, passes[k].before.endpoint, passes[k].before.now + 1,
                   passes[k].exec);
      NextRound(k, MAX_FAILOVER_ATTEMPTS * Tries(turn.settings));
    }
  }

  /** A turn makes at most max_iterations + 3 passes. */
  lemma PassesBounded(env: Environment, turn: Turn, request: seq<Message>, provider: Endpoint, now: nat,
                      passes: seq<Pass>)
    requires AgentTurns.Begun(env, turn, StartOf(turn, request, provider, now), passes)
    ensures passes != [] ==> |passes| <= turn.maxIterations + OVERFLOW_RETRIES
  {
    hide AgentTurns.Begun, Executed;
    var start := StartOf(turn, request, provider, now);
    if passes != [] {
      PassNumber(env, turn, start, passes, |passes| - 1);
      PassAt(env, turn, start, passes, |passes| - 1);
    }
  }

  /** A turn makes at most (max_iterations + 3) * 20 * (max_retries + 1) provider calls. */
  lemma TurnBounded(env: Environment, turn: Turn, request: seq<Message>, provider: Endpoint, now: nat,
                    passes: seq<Pass>)
    requires AgentTurns.Begun(env, turn, StartOf(turn, request, provider, now), passes) && turn.maxIterations >= 0
    ensures TotalCalls(passes) <=
            (turn.maxIterations + OVERFLOW_RETRIES) * (MAX_FAILOVER_ATTEMPTS * Tries(turn.settings))
  {
    hide AgentTurns.Begun, TotalCalls, Tries;
    PassesBounded(env, turn, request, provider, now, passes);
    TotalCallsBounded(env, turn, StartOf(turn, request, provider, now), passes);
    Times(|passes|, turn.maxIterations + OVERFLOW_RETRIES, MAX_FAILOVER_ATTEMPTS * Tries(turn.settings));
  }

  // ---------------------------------------------------------------------
  // Every request of a turn
  // ---------------------------------------------------------------------

  /** Whatever the model, the tools, the errors and the compactions did before, an Anthropic provider
      only ever gets requests without consecutive user messages and with every call answered. */
  lemma EveryRequestSound(env: Environment, turn: Turn, start: State, passes: seq<Pass>, k: nat, c: nat)
    requires AgentTurns.Begun(env, turn, start, passes) && k < |passes| && c < |passes[k].exec.calls|
    requires var e := passes[k].exec.calls[c].endpoint; e.Endpoint? && e.name == "anthropic"
    ensures NoAdjacent(User, passes[k].exec.calls[c].sent) && ForwardPaired(passes[k].exec.calls[c].sent)
  {
    hide AgentTurns.Begun, Executed, ForwardPaired, NoAdjacent, AfterPass;
    PassAt(env, turn, start, passes, k);
    RequestsSound(env, turn.settings, passes[k].before.messages, passes[k].before.endpoint, passes[k].before.now + 1,
                  passes[k].exec, c);
  }

  /** Once the stop flag is set for good no provider is called any more. */
  lemma NoCallAfterStop(env: Environment, turn: Turn, start: State, passes: seq<Pass>, k: nat, c: nat, stopped: nat)
    requires AgentTurns.Begun(env, turn, start, passes) && k < |passes| && c < |passes[k].exec.calls|
    requires forall t: nat :: t >= stopped ==> env.stop(t)
    ensures passes[k].exec.calls[c].at <= stopped
  {
    hide AgentTurns.Begun, AfterPass, ProviderRetry.Begun, After;
    PassAt(env, turn, start, passes, k);
    PlacedAt(env, turn.settings, passes[k].before.messages, passes[k].before.endpoint, passes[k].before.now + 1,
             passes[k].exec.calls, c);
  }

  // ---------------------------------------------------------------------
  // The messages returned
  // ---------------------------------------------------------------------

  /** One round of tool calls: the response that asked for them and the results. */
  datatype Round = Round(response: Response, texts: seq<string>)

  predicate Complete(r: Round) {
    r.response.toolCalls != [] && |r.texts| == |r.response.toolCalls|
  }

  predicate AllComplete(rs: seq<Round>) {
    forall i :: 0 <= i < |rs| ==> Complete(rs[i])
  }

  function RoundMessages(rs: seq<Round>): seq<Message>
    requires AllComplete(rs)
  {
    if rs == [] then [] else Exchange(rs[0].response, rs[0].texts) + RoundMessages(rs[1..])
  }

  ghost predicate MadeOfRounds(ms: seq<Message>) {
    exists rs: seq<Round> :: AllComplete(rs) && ms == RoundMessages(rs)
  }

  lemma {:induction false} RoundMessagesSnoc(rs: seq<Round>, r: Round)
    requires AllComplete(rs) && Complete(r)
    ensures AllComplete(rs + [r])
    ensures RoundMessages(rs + [r]) == RoundMessages(rs) + Exchange(r.response, r.texts)
  {
    hide Exchange;
    if rs == [] {
      assert rs + [r] == [r];
      Whole(Exchange(r.response, r.texts));
    } else {
      RoundMessagesSnoc(rs[1..], r);
      Uncons(rs, [r]);
      Assoc(Exchange(rs[0].response, rs[0].texts), RoundMessages(rs[1..]), Exchange(r.response, r.texts));
    }
  }

  lemma AddedRound(ms: seq<Message>, r: Round)
    requires MadeOfRounds(ms) && Complete(r)
    ensures MadeOfRounds(ms + Exchange(r.response, r.texts))
  {
    hide Exchange, RoundMessages;
    var rs :| AllComplete(rs) && ms == RoundMessages(rs);
    RoundMessagesSnoc(rs, r);
  }

  /** What a step has added so far, or returns before its last message. */
  ghost predicate StepShaped(r: StepResult) {
    match r
    case Continue(s) => MadeOfRounds(s.added)
    case Leave(s) => MadeOfRounds(s.added)
    case Over(result) =>
      result.Completed? ==>
        exists ms, text :: MadeOfRounds(ms) && result.messages == ms + [AssistantText(text)]
  }

  lemma PassShaped(env: Environment, turn: Turn, before: State, x: Execution)
    requires MadeOfRounds(before.added)
    ensures StepShaped(AfterPass(env, turn, before, x))
  {
    hide Exchange, MadeOfRounds, ToolTexts, Truncated, Compacted;
    if x.outcome.Answered? {
      var response := x.outcome.response;
      if response.toolCalls != [] {
        AddedRound(before.added, Round(response, Truncated(turn, ToolTexts(env, response.toolCalls, x.now))));
      }
    }
  }

  lemma {:induction false} PassesShaped(env: Environment, turn: Turn, start: State, passes: seq<Pass>, k: nat)
    requires AgentTurns.Begun(env, turn, start, passes) && k <= |passes| && start.added == []
    ensures StepShaped(AgentTurns.Latest(env, turn, start, passes[..k]))
  {
    hide AgentTurns.Begun, AfterPass, Executed, Running;
    if k == 0 {
      assert RoundMessages([]) == [];
    } else {
      PassesShaped(env, turn, start, passes, k - 1);
      PassAt(env, turn, start, passes, k - 1);
      if k > 1 {
        assert passes[..k - 1][k - 2] == passes[k - 2];
      }
      PassShaped(env, turn, passes[k - 1].before, passes[k - 1].exec);
      assert passes[..k][k - 1] == passes[k - 1];
    }
  }

  /** The ids of the tool calls of a block list, in order, and those of its tool results. */
  function CallIds(blocks: seq<Block>): seq<string> {
    if blocks == [] then []
    else (if blocks[0].kind.ToolUse? then [blocks[0].id] else []) + CallIds(blocks[1..])
  }

  function AnswerIds(blocks: seq<Block>): seq<string> {
    if blocks == [] then []
    else (if blocks[0].kind.ToolResult? then [blocks[0].toolUseId] else []) + AnswerIds(blocks[1..])
  }

  function Ids(calls: seq<ToolCall>): seq<string> {
    if calls == [] then [] else [calls[0].id] + Ids(calls[1..])
  }

  lemma {:induction false} CallBlocksIds(calls: seq<ToolCall>)
    ensures CallIds(CallBlocks(calls)) == Ids(calls)
  {
    if calls != [] {
      CallBlocksIds(calls[1..]);
      assert CallBlocks(calls)[1..] == CallBlocks(calls[1..]);
    }
  }

  lemma {:induction false} ResultBlocksIds(calls: seq<ToolCall>, texts: seq<string>)
    requires |texts| == |calls|
    ensures AnswerIds(ResultBlocks(calls, texts)) == Ids(calls)
  {
    if calls != [] {
      ResultBlocksIds(calls[1..], texts[1..]);
      assert ResultBlocks(calls, texts)[1..] == ResultBlocks(calls[1..], texts[1..]);
    }
  }

  lemma SaidIds(response: Response)
    ensures CallIds(Said(response) + CallBlocks(response.toolCalls)) == Ids(response.toolCalls)
  {
    CallBlocksIds(response.toolCalls);
    if response.content == "" {
      assert Said(response) + CallBlocks(response.toolCalls) == CallBlocks(response.toolCalls);
    } else {
      Cons(MakeText(response.content), CallBlocks(response.toolCalls));
      assert CallIds([MakeText(response.content)] + CallBlocks(response.toolCalls)) ==
             [] + CallIds(CallBlocks(response.toolCalls));
    }
  }

  /** Message i asks for tools and message i + 1 gives one result per call, in the calls' order. */
  predicate AnsweredInOrder(ms: seq<Message>, i: nat)
    requires i + 1 < |ms|
  {
    && ms[i].role.Assistant? && ms[i + 1].role.User?
    && CallIds(ms[i].content) != [] && AnswerIds(ms[i + 1].content) == CallIds(ms[i].content)
  }

  lemma ExchangeInOrder(r: Round)
    requires Complete(r)
    ensures AnsweredInOrder(Exchange(r.response, r.texts), 0)
  {
    SaidIds(r.response);
    ResultBlocksIds(r.response.toolCalls, r.texts);
  }

  lemma {:induction false} RoundsInOrder(rs: seq<Round>, i: nat)
    requires AllComplete(rs)
    requires 2 * i < |RoundMessages(rs)|
    ensures 2 * i + 1 < |RoundMessages(rs)| && AnsweredInOrder(RoundMessages(rs), 2 * i)
  {
    hide AnsweredInOrder;
    ExchangeInOrder(rs[0]);
    var e, rest := Exchange(rs[0].response, rs[0].texts), RoundMessages(rs[1..]);
    assert RoundMessages(rs) == e + rest && |e| == 2;
    if i > 0 {
      RoundsInOrder(rs[1..], i - 1);
      InOrderShift(e, rest, 2 * (i - 1));
    } else {
      InOrderStart(e, rest);
    }
  }

  lemma InOrderShift(e: seq<Message>, rest: seq<Message>, i: nat)
    requires |e| == 2 && i + 1 < |rest| && AnsweredInOrder(rest, i)
    ensures AnsweredInOrder(e + rest, i + 2)
  {
  }

  lemma InOrderStart(e: seq<Message>, rest: seq<Message>)
    requires |e| == 2 && AnsweredInOrder(e, 0)
    ensures AnsweredInOrder(e + rest, 0)
  {
  }

  // Pairing

  predicate IdsNamed(blocks: seq<Block>) {
    forall b :: b in blocks && b.kind.ToolUse? ==> b.id != ""
  }

  predicate CallsNamed(ms: seq<Message>) {
    forall m :: m in ms ==> IdsNamed(m.content)
  }

  lemma ExchangeBlocks(r: Round, i: nat)
    requires Complete(r) && i < |r.response.toolCalls|
    ensures var e, call, said := Exchange(r.response, r.texts), r.response.toolCalls[i], |Said(r.response)|;
            && |e[0].content| == said + |r.response.toolCalls| && |e[1].content| == |r.response.toolCalls|
            && e[0].content[said + i] == MakeToolUse(call.id, call.name, call.arguments)
            && e[1].content[i] == MakeToolResult(call.id, r.texts[i])
  {
  }

  /** The calls of an exchange are those of the response, and its results answer the same ids. */
  lemma ExchangeOpen(r: Round)
    requires Complete(r)
    ensures var e := Exchange(r.response, r.texts);
            PendingIds(e[0]) == ResultIds(e[1].content) && PendingIds(e[1]) == {}
  {
    var e := Exchange(r.response, r.texts);
    var calls := r.response.toolCalls;
    forall id ensures id in PendingIds(e[0]) <==> id in ResultIds(e[1].content) {
      if id in PendingIds(e[0]) {
        var i :| 0 <= i < |calls| && calls[i].id == id;
        ExchangeBlocks(r, i);
      }
      if id in ResultIds(e[1].content) {
        var i :| 0 <= i < |calls| && calls[i].id == id;
        ExchangeBlocks(r, i);
      }
    }
  }

  predicate CallsHaveIds(response: Response) {
    forall i :: 0 <= i < |response.toolCalls| ==> response.toolCalls[i].id != ""
  }

  lemma ExchangeNamed(r: Round)
    requires Complete(r)
    ensures var e := Exchange(r.response, r.texts);
            (IdsNamed(e[0].content) <==> CallsHaveIds(r.response)) && IdsNamed(e[1].content)
  {
    forall i | 0 <= i < |r.response.toolCalls|
      ensures var call := r.response.toolCalls[i];
              MakeToolUse(call.id, call.name, call.arguments) in Exchange(r.response, r.texts)[0].content
    {
      ExchangeBlocks(r, i);
    }
  }

  lemma ExchangeAnswers(r: Round)
    requires Complete(r)
    ensures var e := Exchange(r.response, r.texts);
            ResultsWithin(e[1], ResultIds(e[1].content)) <==> CallsHaveIds(r.response)
  {
    forall i | 0 <= i < |r.response.toolCalls|
      ensures MakeToolResult(r.response.toolCalls[i].id, r.texts[i]) in Exchange(r.response, r.texts)[1].content
    {
      ExchangeBlocks(r, i);
    }
  }

  lemma ExchangeIds(r: Round)
    requires Complete(r)
    ensures var e := Exchange(r.response, r.texts);
            && PendingIds(e[0]) == ResultIds(e[1].content) && PendingIds(e[1]) == {}
            && (ResultsWithin(e[1], PendingIds(e[0])) <==> IdsNamed(e[0].content)) && IdsNamed(e[1].content)
  {
    hide ResultsWithin, IdsNamed, ResultIds, PendingIds, CallsHaveIds;
    ExchangeOpen(r);
    ExchangeNamed(r);
    ExchangeAnswers(r);
  }

  lemma {:induction false} RoundsPaired(rs: seq<Round>, last: Message)
    requires AllComplete(rs) && last.role.Assistant? && ToolUseIds(last.content) == {} && IdsNamed(last.content)
    ensures ForwardFrom(RoundMessages(rs) + [last])
    ensures PairedFrom({}, RoundMessages(rs) + [last]) <==> CallsNamed(RoundMessages(rs) + [last])
  {
    if rs == [] {
      assert RoundMessages(rs) + [last] == [last];
    } else {
      RoundsPaired(rs[1..], last);
      ExchangeIds(rs[0]);
      var e, rest := Exchange(rs[0].response, rs[0].texts), RoundMessages(rs[1..]) + [last];
      Assoc(e, RoundMessages(rs[1..]), [last]);
      PairBeforePaired(e, rest);
    }
  }

  lemma PairBeforePaired(e: seq<Message>, rest: seq<Message>)
    requires |e| == 2 && e[0].role.Assistant? && e[1].role.User?
    requires PendingIds(e[0]) == ResultIds(e[1].content)
    requires ResultsWithin(e[1], PendingIds(e[0])) <==> IdsNamed(e[0].content)
    requires IdsNamed(e[1].content)
    requires ForwardFrom(rest) && (PairedFrom({}, rest) <==> CallsNamed(rest))
    ensures ForwardFrom(e + rest)
    ensures PairedFrom({}, e + rest) <==> CallsNamed(e + rest)
  {
    hide ResultsWithin, IdsNamed, ResultIds, ToolUseIds;
    var all := e + rest;
    assert all[1..] == [e[1]] + rest && all[1..][1..] == rest;
    assert ResultsWithin(e[0], {}) by { NotAUser(e[0]); }
    assert CallsNamed(all) <==> IdsNamed(e[0].content) && CallsNamed(rest) by {
      NamedPair(e, rest);
    }
  }

  lemma NotAUser(m: Message)
    requires m.role.Assistant?
    ensures ResultsWithin(m, {})
  {
  }

  lemma NamedPair(e: seq<Message>, rest: seq<Message>)
    requires |e| == 2 && IdsNamed(e[1].content)
    ensures CallsNamed(e + rest) <==> IdsNamed(e[0].content) && CallsNamed(rest)
  {
    hide IdsNamed;
    assert (e + rest)[0] == e[0];
    forall m ensures m in e + rest <==> m == e[0] || m == e[1] || m in rest {
    }
  }

  /** The messages a turn returns: rounds of calls, each answered one result per call in order,
      then one text of the assistant. Every call with an id is answered; the pairing is two-way
      exactly when the model gave every call an id. */
  lemma ReturnedMessages(env: Environment, turn: Turn, request: seq<Message>, provider: Endpoint, now: nat,
                         passes: seq<Pass>, result: TurnResult)
    requires TurnOf(env, turn, StartOf(turn, request, provider, now), passes, result) && result.Completed?
    ensures |result.messages| % 2 == 1
    ensures forall i: nat :: 2 * i + 1 < |result.messages| ==> AnsweredInOrder(result.messages, 2 * i)
    ensures ForwardPaired(result.messages)
    ensures Paired(result.messages) <==> CallsNamed(result.messages)
  {
    hide AgentTurns.Begun, Executed, AnsweredInOrder, Paired, ForwardPaired, TurnOf, RoundMessages;
    var rs, text := RoundsReturned(env, turn, request, provider, now, passes, result);
    RoundsLaws(rs, text);
  }

  lemma RoundsReturned(env: Environment, turn: Turn, request: seq<Message>, provider: Endpoint, now: nat,
                       passes: seq<Pass>, result: TurnResult) returns (rs: seq<Round>, text: string)
    requires TurnOf(env, turn, StartOf(turn, request, provider, now), passes, result) && result.Completed?
    ensures AllComplete(rs) && result.messages == RoundMessages(rs) + [AssistantText(text)]
  {
    hide AgentTurns.Begun, AgentTurns.Latest, RoundMessages, AllComplete, AssistantText;
    var start := StartOf(turn, request, provider, now);
    PassesShaped(env, turn, start, passes, |passes|);
    Whole(passes);
    var r := AgentTurns.Latest(env, turn, start, passes);
    var ms: seq<Message>;
    if r.Over? {
      ms, text :| MadeOfRounds(ms) && result.messages == ms + [AssistantText(text)];
    } else {
      ms, text := r.state.added, STOPPED;
    }
    rs :| AllComplete(rs) && ms == RoundMessages(rs);
  }

  lemma RoundsLaws(rs: seq<Round>, text: string)
    requires AllComplete(rs)
    ensures var ms := RoundMessages(rs) + [AssistantText(text)];
            && |ms| % 2 == 1
            && (forall i: nat :: 2 * i + 1 < |ms| ==> AnsweredInOrder(ms, 2 * i))
            && ForwardPaired(ms) && (Paired(ms) <==> CallsNamed(ms))
  {
    hide RoundMessages, AnsweredInOrder, Paired, ForwardPaired, PairedFrom, ForwardFrom;
    var body := RoundMessages(rs);
    var ms := body + [AssistantText(text)];
    EvenRounds(rs);
    forall i: nat | 2 * i + 1 < |ms| ensures AnsweredInOrder(ms, 2 * i) {
      RoundsInOrder(rs, i);
      InOrderPrefix(body, [AssistantText(text)], 2 * i);
    }
    RoundsPaired(rs, AssistantText(text));
    ForwardIff(ms);
    PairedIff(ms);
  }

  lemma InOrderPrefix(ms: seq<Message>, rest: seq<Message>, i: nat)
    requires i + 1 < |ms| && AnsweredInOrder(ms, i)
    ensures AnsweredInOrder(ms + rest, i)
  {
  }

  lemma {:induction false} EvenRounds(rs: seq<Round>)
    requires AllComplete(rs)
    ensures |RoundMessages(rs)| == 2 * |rs|
  {
    if rs != [] {
      EvenRounds(rs[1..]);
    }
  }

  /** What a pass adds to the messages returned: its tool calls and their results. */
  function RoundOf(env: Environment, turn: Turn, p: Pass): seq<Message> {
    if p.exec.outcome.Answered? && p.exec.outcome.response.toolCalls != [] then
      var response := p.exec.outcome.response;
      Exchange(response, Truncated(turn, ToolTexts(env, response.toolCalls, p.exec.now)))
    else []
  }

  function RoundsOf(env: Environment, turn: Turn, passes: seq<Pass>): seq<Message> {
    if passes == [] then []
    else RoundsOf(env, turn, passes[..|passes| - 1]) + RoundOf(env, turn, passes[|passes| - 1])
  }

  /** The pass is answered with a text that neither guard rejects. */
  predicate Concluding(turn: Turn, p: Pass) {
    && p.exec.outcome.Answered? && p.exec.outcome.response.toolCalls == [] && p.exec.outcome.response.content != ""
    && !LookupGuardFires(turn, p.before, p.exec.outcome.response.content)
    && !SearchGuardFires(turn, p.before, p.exec.sent, p.exec.outcome.response.content)
  }

  function FinalText(turn: Turn, passes: seq<Pass>): string {
    if passes != [] && Concluding(turn, passes[|passes| - 1]) then passes[|passes| - 1].exec.outcome.response.content
    else STOPPED
  }

  lemma PassAdds(env: Environment, turn: Turn, p: Pass)
    ensures var r := AfterPass(env, turn, p.before, p.exec);
            && (r.Over? && r.result.Completed? <==> Concluding(turn, p))
            && (r.Over? && r.result.Completed? ==>
                  r.result.messages == p.before.added + [AssistantText(p.exec.outcome.response.content)])
            && (!r.Over? ==> r.state.added == p.before.added + RoundOf(env, turn, p))
    ensures Concluding(turn, p) ==> RoundOf(env, turn, p) == []
  {
    hide ToolTexts, Truncated, Exchange, Compacted;
    assert p.before.added + [] == p.before.added;
  }

  lemma {:induction false} AddedSoFar(env: Environment, turn: Turn, start: State, passes: seq<Pass>, k: nat)
    requires AgentTurns.Begun(env, turn, start, passes) && k <= |passes| && start.added == []
    ensures var r := AgentTurns.Latest(env, turn, start, passes[..k]);
            !r.Over? ==> r.state.added == RoundsOf(env, turn, passes[..k])
  {
    hide AgentTurns.Begun, AfterPass, Executed, Running, RoundOf;
    if k > 0 {
      AddedSoFar(env, turn, start, passes, k - 1);
      PassAt(env, turn, start, passes, k - 1);
      PassAdds(env, turn, passes[k - 1]);
      assert passes[..k][..k - 1] == passes[..k - 1] && passes[..k][k - 1] == passes[k - 1];
    }
  }

  /** A turn that completes returns what its passes called and got for it, in order and each once,
      and the text of the last response, or the stop notice if no text concluded the turn. */
  lemma ReturnedExactly(env: Environment, turn: Turn, request: seq<Message>, provider: Endpoint, now: nat,
                        passes: seq<Pass>, result: TurnResult)
    requires TurnOf(env, turn, StartOf(turn, request, provider, now), passes, result) && result.Completed?
    ensures result.messages == RoundsOf(env, turn, passes) + [AssistantText(FinalText(turn, passes))]
  {
    hide AgentTurns.Begun, AfterPass, Executed, Running, RoundOf, Concluding, AssistantText;
    var start, n := StartOf(turn, request, provider, now), |passes| - 1;
    if passes != [] {
      AddedSoFar(env, turn, start, passes, n);
      AddedSoFar(env, turn, start, passes, n + 1);
      Whole(passes);
      PassAt(env, turn, start, passes, n);
      PassAdds(env, turn, passes[n]);
    }
  }

  // ---------------------------------------------------------------------
  // The guards
  // ---------------------------------------------------------------------

  /** The lookup guard rejects the text of this pass. */
  predicate LookupRejected(turn: Turn, p: Pass) {
    p.exec.outcome.Answered? && p.exec.outcome.response.toolCalls == [] && p.exec.outcome.response.content != "" &&
    LookupGuardFires(turn, p.before, p.exec.outcome.response.content)
  }

  lemma FlagsAfterPass(env: Environment, turn: Turn, p: Pass)
    requires AfterPass(env, turn, p.before, p.exec).Continue?
    ensures var s := AfterPass(env, turn, p.before, p.exec).state;
            && (s.lookupRetry <==> p.before.lookupRetry || LookupRejected(turn, p))
            && s.forced == Forced(p.before)
            && (s.iterations == p.before.iterations || s.iterations == p.before.iterations + 1)
            && (s.iterations == p.before.iterations ==> !LookupRejected(turn, p))
  {
    hide Compacted, Exchange, ToolTexts, Truncated;
  }

  ghost predicate RejectedBefore(turn: Turn, passes: seq<Pass>, k: nat)
    requires k <= |passes|
  {
    exists j: nat :: j < k && LookupRejected(turn, passes[j])
  }

  ghost predicate FirstAnswerRejected(turn: Turn, passes: seq<Pass>, k: nat)
    requires k <= |passes|
  {
    exists j: nat :: j < k && passes[j].before.iterations == 0 && LookupRejected(turn, passes[j])
  }

  lemma {:induction false} FlagsAt(env: Environment, turn: Turn, request: seq<Message>, provider: Endpoint, now: nat,
                                   passes: seq<Pass>, k: nat)
    requires AgentTurns.Begun(env, turn, StartOf(turn, request, provider, now), passes) && k < |passes|
    ensures passes[k].before.lookupRetry <==> RejectedBefore(turn, passes, k)
    ensures passes[k].before.iterations == 0 ==>
              !passes[k].before.lookupRetry && passes[k].before.forced == turn.lookupIntent
    ensures Forced(passes[k].before) <==>
            turn.lookupIntent && (passes[k].before.iterations == 0 || FirstAnswerRejected(turn, passes, k))
  {
    hide AgentTurns.Begun, AfterPass, Executed, Running, LookupRejected;
    var start := StartOf(turn, request, provider, now);
    PassAt(env, turn, start, passes, k);
    if k > 0 {
      FlagsAt(env, turn, request, provider, now, passes, k - 1);
      FlagsAfterPass(env, turn, passes[k - 1]);
    }
  }

  /** The lookup guard fires at most once in a turn. */
  lemma LookupGuardOnce(env: Environment, turn: Turn, request: seq<Message>, provider: Endpoint, now: nat,
                        passes: seq<Pass>, j: nat, k: nat)
    requires AgentTurns.Begun(env, turn, StartOf(turn, request, provider, now), passes) && j < k < |passes|
    ensures !(LookupRejected(turn, passes[j]) && LookupRejected(turn, passes[k]))
  {
    FlagsAt(env, turn, request, provider, now, passes, k);
  }

  /** When a request forces a tool call: for a lookup, until the first answer; and after it exactly
      if that first answer was the one the guard rejected, for all the rest of the turn. A later
      rejection is retried without forcing. */
  lemma ToolChoice(env: Environment, turn: Turn, request: seq<Message>, provider: Endpoint, now: nat,
                   passes: seq<Pass>, k: nat)
    requires AgentTurns.Begun(env, turn, StartOf(turn, request, provider, now), passes) && k < |passes|
    ensures Forced(passes[k].before) <==>
            turn.lookupIntent && (passes[k].before.iterations == 0 || FirstAnswerRejected(turn, passes, k))
  {
    FlagsAt(env, turn, request, provider, now, passes, k);
  }

  // ---------------------------------------------------------------------
  // Overflow recovery
  // ---------------------------------------------------------------------

  /** The recovery makes the request shorter exactly from four messages on, five with a system prompt. */
  lemma CompactionShrinksIff(turn: Turn, ms: seq<Message>)
    requires |ms| >= 2
    ensures |Compacted(turn, ms)| < |ms| <==> |ms| >= 4 + |Prompt(turn)|
  {
  }

  /** The recovery keeps the last message, and the last two messages together. */
  lemma CompactionKeepsEnd(turn: Turn, ms: seq<Message>)
    requires |ms| >= 2
    ensures var c := Compacted(turn, ms);
            |c| >= 2 && c[|c| - 2..] == ms[|ms| - 2..]
  {
    var kept := ms[|ms| - KeptOnOverflow(|ms|)..];
    EndOfConcat(Prompt(turn) + [TextMessage(System, OVERFLOW_NOTICE)], kept);
    assert kept[|kept| - 2..] == ms[|ms| - 2..];
  }

  lemma EndOfConcat<T>(a: seq<T>, b: seq<T>)
    requires |b| >= 2
    ensures (a + b)[|a + b| - 2..] == b[|b| - 2..]
  {
  }

  /** When the recovery reads out of range: an overflow finds fewer than two messages. */
  lemma OutOfRangeIff(env: Environment, turn: Turn, start: State, passes: seq<Pass>, result: TurnResult)
    requires TurnOf(env, turn, start, passes, result)
    ensures result.OutOfRange? <==>
            passes != [] &&
            var p := passes[|passes| - 1];
            p.exec.outcome == Failed(ContextOverflow) && p.before.overflows < OVERFLOW_RETRIES && |p.exec.sent| < 2
  {
    hide AgentTurns.Begun, ToolTexts, Exchange, Compacted;
  }

  lemma LoneCall(env: Environment, turn: Turn, words: Message, now: nat, x: Execution)
    requires !turn.settings.validator
    requires (forall t :: !env.stop(t)) && (forall t :: env.reply(t) == Error(ContextOverflow))
    requires Executed(env, turn.settings, [words], Endpoint(0, "openai"), now + 1, x)
    ensures x.outcome == Failed(ContextOverflow) && x.sent == [words]
  {
    LastReplyDecides(env, turn.settings, [words], Endpoint(0, "openai"), now + 1, x);
    if |x.calls| > 1 {
      OnlyTheLastIsFinal(env, turn.settings, [words], Endpoint(0, "openai"), now + 1, x, 0);
    }
  }

  /** It does happen: a first message without history or system prompt that overflows. */
  lemma LoneMessageOverflows(env: Environment, turn: Turn, words: Message, now: nat, passes: seq<Pass>,
                             result: TurnResult)
    requires turn.maxIterations > 0 && !turn.settings.validator
    requires (forall t :: !env.stop(t)) && (forall t :: env.reply(t) == Error(ContextOverflow))
    requires TurnOf(env, turn, StartOf(turn, [words], Endpoint(0, "openai"), now), passes, result)
    ensures result == OutOfRange
  {
    var start := StartOf(turn, [words], Endpoint(0, "openai"), now);
    hide AgentTurns.Begun, Executed, Compacted, AfterAnswer;
    assert passes != [];
    PassAt(env, turn, start, passes, 0);
    LoneCall(env, turn, words, now, passes[0].exec);
    if |passes| > 1 {
      PassAt(env, turn, start, passes, 1);
    }
  }
}
