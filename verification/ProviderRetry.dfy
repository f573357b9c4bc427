/** execute_with_retry: retries on one provider, then failover to the next. */
module ProviderRetry {
  import opened Seqs
  import opened Messages
  import opened RequestSanitizer

  datatype ErrorKind =
    RateLimit | AuthError | BillingError | Transient | ModelNotFound | Timeout | ContextOverflow | Unknown

  predicate Retryable(kind: ErrorKind) {
    kind.RateLimit? || kind.Transient? || kind.Timeout?
  }

  datatype ToolCall = ToolCall(id: string, name: string, arguments: string)

  datatype Response = Response(content: string, toolCalls: seq<ToolCall>)

  /** What a provider call comes to: a response, a ProviderError, or any other exception. */
  datatype Reply = Answer(response: Response) | Error(kind: ErrorKind) | Crash

  datatype ToolOutcome = Returned(text: string) | Threw(what: string)

  /** A provider object; two objects may share a provider name. */
  datatype Endpoint = NoEndpoint | Endpoint(handle: int, name: string)

  function ProviderOf(e: Endpoint): Provider {
    if e.NoEndpoint? then NoProvider else Provider.Provider(e.name)
  }

  /** Everything the agent does not control, by the moment it looks: the stop flag, the reply to a
      provider call, the provider a failover resolves to, and what a tool call comes to. */
  datatype Environment = Environment(stop: nat -> bool, reply: nat -> Reply, resolve: nat -> Endpoint,
                                     tool: (nat, ToolCall) -> ToolOutcome)

  datatype Settings = Settings(resolver: bool, validator: bool, maxRetries: nat)

  const MAX_FAILOVER_ATTEMPTS := 20

  /** One provider call: when, in which failover round and retry of it, to whom, what, and the reply. */
  datatype Attempt = Attempt(at: nat, round: nat, retry: nat, endpoint: Endpoint, sent: seq<Message>, reply: Reply)

  datatype Outcome = Answered(response: Response) | Failed(kind: ErrorKind) | Crashed | Stopped | Exhausted

  /** What follows a call: the end, or the next call. */
  datatype Verdict =
    | Ends(outcome: Outcome, now: nat)
    | Again(at: nat, round: nat, retry: nat, endpoint: Endpoint)

  datatype Execution = Execution(sent: seq<Message>, endpoint: Endpoint, outcome: Outcome, now: nat,
                                 calls: seq<Attempt>)

  // ---------------------------------------------------------------------
  // What the calls of one execution must look like
  // ---------------------------------------------------------------------

  /** The call is followed by another one on the same provider, after a wait. */
  predicate RetriesSame(cfg: Settings, a: Attempt) {
    a.reply.Error? && Retryable(a.reply.kind) && a.retry < cfg.maxRetries
  }

  function AfterFailure(env: Environment, cfg: Settings, a: Attempt): Verdict
    requires a.reply.Error?
  {
    var next := env.resolve(a.at + 2);
    if env.stop(a.at + 1) then Ends(Stopped, a.at + 2)
    else if !cfg.resolver then Ends(Failed(a.reply.kind), a.at + 2)
    else if next == NoEndpoint || (next == a.endpoint && a.round > 0) then Ends(Exhausted, a.at + 3)
    else if a.round + 1 == MAX_FAILOVER_ATTEMPTS then Ends(Exhausted, a.at + 3)
    else Again(a.at + 4, a.round + 1, 0, next)
  }

  /** What is due after a call, but for the look at the stop flag right before a further one. */
  function Due(env: Environment, cfg: Settings, a: Attempt): Verdict {
    match a.reply
    case Answer(response) => Ends(Answered(response), a.at + 1)
    case Crash => Ends(Crashed, a.at + 1)
    case Error(kind) =>
      if kind.ContextOverflow? then Ends(Failed(kind), a.at + 1)
      else if !RetriesSame(cfg, a) then AfterFailure(env, cfg, a)
      else if env.stop(a.at + 1) then Ends(Stopped, a.at + 2)
      else Again(a.at + 3, a.round, a.retry + 1, a.endpoint)
  }

  function After(env: Environment, cfg: Settings, a: Attempt): Verdict {
    var due := Due(env, cfg, a);
    if due.Again? && env.stop(due.at - 1) then Ends(Stopped, due.at) else due
  }

  /** b is the call that verdict v asks for, its messages being `before` made fit for its provider. */
  ghost predicate IsCall(env: Environment, cfg: Settings, v: Verdict, before: seq<Message>, b: Attempt) {
    && v == Again(b.at, b.round, b.retry, b.endpoint)
    && b.reply == env.reply(b.at)
    && IsSanitized(ProviderOf(b.endpoint), cfg.validator, before, b.sent)
  }

  ghost predicate LinkedAt(env: Environment, cfg: Settings, calls: seq<Attempt>, k: nat)
    requires 0 < k < |calls|
  {
    IsCall(env, cfg, After(env, cfg, calls[k - 1]), calls[k - 1].sent, calls[k])
  }

  ghost predicate Linked(env: Environment, cfg: Settings, calls: seq<Attempt>) {
    forall k: nat :: 0 < k < |calls| ==> LinkedAt(env, cfg, calls, k)
  }

  /** calls is how an execution starting here goes, up to some point. */
  ghost predicate Begun(env: Environment, cfg: Settings, messages: seq<Message>, endpoint: Endpoint, now: nat,
                        calls: seq<Attempt>) {
    && Linked(env, cfg, calls)
    && (calls != [] ==> !env.stop(now) && IsCall(env, cfg, Again(now + 1, 0, 0, endpoint), messages, calls[0]))
  }

  ghost predicate Executed(env: Environment, cfg: Settings, messages: seq<Message>, endpoint: Endpoint, now: nat,
                           x: Execution) {
    && Begun(env, cfg, messages, endpoint, now, x.calls)
    && (if x.calls == [] then
          env.stop(now) && x.outcome == Stopped && x.sent == messages && x.endpoint == endpoint && x.now == now + 1
        else
          var last := x.calls[|x.calls| - 1];
          After(env, cfg, last) == Ends(x.outcome, x.now) && x.sent == last.sent && x.endpoint == last.endpoint)
  }

  /** The messages and the verdict from which the next call is made. */
  function Latest(messages: seq<Message>, calls: seq<Attempt>): seq<Message> {
    if calls == [] then messages else calls[|calls| - 1].sent
  }

  function LatestEndpoint(endpoint: Endpoint, calls: seq<Attempt>): Endpoint {
    if calls == [] then endpoint else calls[|calls| - 1].endpoint
  }

  function Next(env: Environment, cfg: Settings, endpoint: Endpoint, now: nat, calls: seq<Attempt>): Verdict {
    if calls == [] then Again(now + 1, 0, 0, endpoint) else Due(env, cfg, calls[|calls| - 1])
  }

  lemma NotBegun(env: Environment, cfg: Settings, messages: seq<Message>, endpoint: Endpoint, now: nat)
    ensures Begun(env, cfg, messages, endpoint, now, [])
  {
  }

  lemma BegunSnoc(env: Environment, cfg: Settings, messages: seq<Message>, endpoint: Endpoint, now: nat,
                  calls: seq<Attempt>, b: Attempt)
    requires Begun(env, cfg, messages, endpoint, now, calls)
    requires IsCall(env, cfg, Next(env, cfg, endpoint, now, calls), Latest(messages, calls), b) && !env.stop(b.at - 1)
    ensures Begun(env, cfg, messages, endpoint, now, calls + [b])
  {
    hide Due, IsSanitized;
    var more := calls + [b];
    forall k: nat | 0 < k < |more| ensures LinkedAt(env, cfg, more, k) {
      if k < |calls| {
        assert LinkedAt(env, cfg, calls, k);
      }
    }
  }

  lemma Concluded(env: Environment, cfg: Settings, messages: seq<Message>, endpoint: Endpoint, now: nat, x: Execution)
    requires Begun(env, cfg, messages, endpoint, now, x.calls)
    requires x.sent == Latest(messages, x.calls) && x.endpoint == LatestEndpoint(endpoint, x.calls)
    requires Next(env, cfg, endpoint, now, x.calls) == Ends(x.outcome, x.now) ||
             (Next(env, cfg, endpoint, now, x.calls).Again? && x.outcome == Stopped &&
              x.now == Next(env, cfg, endpoint, now, x.calls).at && env.stop(x.now - 1))
    ensures Executed(env, cfg, messages, endpoint, now, x)
  {
    hide Begun, Due;
  }

  /** The retry loop on one provider: it ends the execution, or leaves a failure to fail over from. */
  method TryProvider(env: Environment, cfg: Settings, messages: seq<Message>, provider: Endpoint, start: nat,
                     endpoint: Endpoint, round: nat, soFar: seq<Attempt>, from: nat)
    returns (over: bool, x: Execution)
    requires Begun(env, cfg, messages, provider, start, soFar) && (soFar == [] ==> from == start)
    requires Next(env, cfg, provider, start, soFar) == Again(from + 1, round, 0, endpoint)
    ensures over ==> Executed(env, cfg, messages, provider, start, x)
    ensures !over ==>
      && Begun(env, cfg, messages, provider, start, x.calls) && x.calls != []
      && x.sent == Latest(messages, x.calls)
      && var a := x.calls[|x.calls| - 1];
         a.endpoint == endpoint && a.round == round && a.at + 1 == x.now && x.endpoint == endpoint
         && a.reply.Error? && x.outcome == Failed(a.reply.kind)
         && Due(env, cfg, a) == AfterFailure(env, cfg, a)
  {
    hide IsSanitized, Begun, Executed, AfterFailure;
    var calls, request, now, retry := soFar, Latest(messages, soFar), from, 0;
    while true
      invariant retry <= cfg.maxRetries
      invariant Begun(env, cfg, messages, provider, start, calls)
      invariant request == Latest(messages, calls) && (calls == [] ==> now == start)
      invariant Next(env, cfg, provider, start, calls) == Again(now + 1, round, retry, endpoint)
      decreases cfg.maxRetries - retry
    {
      if env.stop(now) {
        x := Execution(request, LatestEndpoint(provider, calls), Stopped, now + 1, calls);
        Concluded(env, cfg, messages, provider, start, x);
        return true, x;
      }
      var sent := SanitizeRequestMessages(ProviderOf(endpoint), cfg.validator, request);
      var a := Attempt(now + 1, round, retry, endpoint, sent, env.reply(now + 1));
      BegunSnoc(env, cfg, messages, provider, start, calls, a);
      calls, request, now := calls + [a], sent, now + 2;
      if a.reply.Answer? {
        x := Execution(request, endpoint, Answered(a.reply.response), now, calls);
        Concluded(env, cfg, messages, provider, start, x);
        return true, x;
      }
      if a.reply.Crash? {
        x := Execution(request, endpoint, Crashed, now, calls);
        Concluded(env, cfg, messages, provider, start, x);
        return true, x;
      }
      var kind := a.reply.kind;
      if kind.ContextOverflow? {
        x := Execution(request, endpoint, Failed(kind), now, calls);
        Concluded(env, cfg, messages, provider, start, x);
        return true, x;
      }
      if !(Retryable(kind) && retry < cfg.maxRetries) {
        return false, Execution(request, endpoint, Failed(kind), now, calls);
      }
      var interrupted := env.stop(now);
      now := now + 1;
      if interrupted {
        x := Execution(request, endpoint, Stopped, now, calls);
        Concluded(env, cfg, messages, provider, start, x);
        return true, x;
      }
      retry := retry + 1;
    }
  }

  method ExecuteWithRetry(env: Environment, cfg: Settings, messages: seq<Message>, provider: Endpoint, start: nat)
    returns (x: Execution)
    requires provider.Endpoint?
    ensures Executed(env, cfg, messages, provider, start, x)
  {
    hide IsSanitized, Begun, Executed;
    NotBegun(env, cfg, messages, provider, start);
    var endpoint, failovers := provider, 0;
    var over;
    x := Execution(messages, provider, Exhausted, start, []);
    while failovers < MAX_FAILOVER_ATTEMPTS
      invariant failovers <= MAX_FAILOVER_ATTEMPTS
      invariant Begun(env, cfg, messages, provider, start, x.calls)
      invariant x.calls == [] ==> x.now == start && failovers == 0
      invariant Next(env, cfg, provider, start, x.calls) ==
                if failovers < MAX_FAILOVER_ATTEMPTS then Again(x.now + 1, failovers, 0, endpoint)
                else Ends(Exhausted, x.now)
      invariant failovers > 0 ==> x.sent == Latest(messages, x.calls) && x.endpoint == LatestEndpoint(provider, x.calls)
      invariant x.outcome == Exhausted
    {
      over, x := TryProvider(env, cfg, messages, provider, start, endpoint, failovers, x.calls, x.now);
      if over {
        return;
      }
      var stopped := env.stop(x.now);
      x := x.(now := x.now + 1);
      if stopped || !cfg.resolver {
        if stopped {
          x := x.(outcome := Stopped);
        }
        Concluded(env, cfg, messages, provider, start, x);
        return;
      }
      var resolved := env.resolve(x.now);
      x := x.(now := x.now + 1, outcome := Exhausted);
      if resolved.NoEndpoint? || (resolved == endpoint && failovers > 0) {
        Concluded(env, cfg, messages, provider, start, x);
        return;
      }
      endpoint, failovers := resolved, failovers + 1;
    }
    Concluded(env, cfg, messages, provider, start, x);
  }

  // ---------------------------------------------------------------------
  // Laws of an execution
  // ---------------------------------------------------------------------

  function Tries(cfg: Settings): nat {
    cfg.maxRetries + 1
  }

  /** Where call k stands; it comes right after a look at the stop flag that was clear. */
  ghost predicate Placed(env: Environment, cfg: Settings, k: nat, a: Attempt) {
    && a.round < MAX_FAILOVER_ATTEMPTS && a.retry <= cfg.maxRetries
    && k <= a.round * Tries(cfg) + a.retry
    && a.at > 0 && !env.stop(a.at - 1) && a.reply == env.reply(a.at)
  }

  lemma NextRound(round: nat, tries: nat)
    ensures (round + 1) * tries == round * tries + tries
  {
  }

  lemma {:induction false} PlacedAt(env: Environment, cfg: Settings, messages: seq<Message>, endpoint: Endpoint,
                                    now: nat, calls: seq<Attempt>, k: nat)
    requires Begun(env, cfg, messages, endpoint, now, calls) && k < |calls|
    ensures Placed(env, cfg, k, calls[k])
  {
    hide IsSanitized;
    if k > 0 {
      PlacedAt(env, cfg, messages, endpoint, now, calls, k - 1);
      assert LinkedAt(env, cfg, calls, k);
      NextRound(calls[k - 1].round, Tries(cfg));
    }
  }

  /** No call goes to a missing provider. */
  lemma {:induction false} EndpointsExist(env: Environment, cfg: Settings, messages: seq<Message>, endpoint: Endpoint,
                                          now: nat, calls: seq<Attempt>, k: nat)
    requires Begun(env, cfg, messages, endpoint, now, calls) && k < |calls| && endpoint.Endpoint?
    ensures calls[k].endpoint.Endpoint?
  {
    hide IsSanitized;
    if k > 0 {
      EndpointsExist(env, cfg, messages, endpoint, now, calls, k - 1);
      assert LinkedAt(env, cfg, calls, k);
    }
  }

  lemma Times(a: nat, b: nat, c: nat)
    requires a <= b
    ensures a * c <= b * c
  {
  }

  lemma RoundsTimesTries(round: nat, rounds: nat, tries: nat)
    requires round < rounds
    ensures round * tries + tries <= rounds * tries
  {
    NextRound(round, tries);
    Times(round + 1, rounds, tries);
  }

  /** An execution makes at most 20 * (max_retries + 1) provider calls. */
  lemma CallsBounded(env: Environment, cfg: Settings, messages: seq<Message>, endpoint: Endpoint, now: nat,
                     x: Execution)
    requires Executed(env, cfg, messages, endpoint, now, x)
    ensures |x.calls| <= MAX_FAILOVER_ATTEMPTS * Tries(cfg)
  {
    hide Begun, After;
    if x.calls != [] {
      var k := |x.calls| - 1;
      PlacedAt(env, cfg, messages, endpoint, now, x.calls, k);
      RoundsTimesTries(x.calls[k].round, MAX_FAILOVER_ATTEMPTS, Tries(cfg));
    }
  }

  /** Every call but the last failed in a way that may be tried again. */
  lemma OnlyTheLastIsFinal(env: Environment, cfg: Settings, messages: seq<Message>, endpoint: Endpoint, now: nat,
                           x: Execution, k: nat)
    requires Executed(env, cfg, messages, endpoint, now, x) && k + 1 < |x.calls|
    ensures x.calls[k].reply.Error? && !x.calls[k].reply.kind.ContextOverflow?
  {
    hide IsSanitized;
    assert LinkedAt(env, cfg, x.calls, k + 1);
  }

  /** The last reply decides the outcome. */
  lemma LastReplyDecides(env: Environment, cfg: Settings, messages: seq<Message>, endpoint: Endpoint, now: nat,
                         x: Execution)
    requires Executed(env, cfg, messages, endpoint, now, x) && x.calls != []
    ensures var reply := x.calls[|x.calls| - 1].reply;
            && (x.outcome.Answered? <==> reply.Answer?) && (reply.Answer? ==> x.outcome.response == reply.response)
            && (x.outcome.Crashed? <==> reply.Crash?)
            && (x.outcome == Failed(ContextOverflow) <==> reply == Error(ContextOverflow))
            && (x.outcome.Failed? ==> reply == Error(x.outcome.kind))
  {
    hide Begun;
  }

  /** Call k + 1 goes to the same provider after a retryable error with retries left, or else starts
      the next round, on a different provider unless it is the first failover. */
  lemma RetryOrFailover(env: Environment, cfg: Settings, messages: seq<Message>, endpoint: Endpoint, now: nat,
                        x: Execution, k: nat)
    requires Executed(env, cfg, messages, endpoint, now, x) && k + 1 < |x.calls|
    ensures var a, b := x.calls[k], x.calls[k + 1];
            if RetriesSame(cfg, a) then b.round == a.round && b.retry == a.retry + 1 && b.endpoint == a.endpoint
            else cfg.resolver && b.round == a.round + 1 && b.retry == 0 && b.endpoint.Endpoint? &&
                 (a.round > 0 ==> b.endpoint != a.endpoint)
  {
    hide IsSanitized;
    assert LinkedAt(env, cfg, x.calls, k + 1);
  }

  /** The failures after which the same provider is called once more, while it has retries left. */
  predicate GoesAgain(cfg: Settings, kind: ErrorKind, retry: nat) {
    kind in {RateLimit, Transient, Timeout} && retry < cfg.maxRetries
  }

  /** No other provider is to be had after the call: the chain is as long as it may get, nothing is
      resolved, or what comes back after a failover is the provider that failed. */
  predicate NoneLeft(env: Environment, a: Attempt) {
    || a.round == 19
    || env.resolve(a.at + 2) == NoEndpoint
    || (a.round > 0 && env.resolve(a.at + 2) == a.endpoint)
  }

  /** How an execution ends whose last call failed, kind by kind: it was stopped, if a stop was seen
      after the call; or, the call not to be repeated, the error is raised if nothing can resolve
      another provider, and the chain is exhausted if none is left. In every other case a further call
      is made. */
  lemma FailureEndsIff(env: Environment, cfg: Settings, messages: seq<Message>, endpoint: Endpoint, now: nat,
                       x: Execution)
    requires Executed(env, cfg, messages, endpoint, now, x) && x.calls != []
    requires var reply := x.calls[|x.calls| - 1].reply; reply.Error? && reply.kind != ContextOverflow
    ensures var a := x.calls[|x.calls| - 1];
            var again, seen := GoesAgain(cfg, a.reply.kind, a.retry), env.stop(a.at + 1);
            && (x.outcome.Failed? <==> !again && !seen && !cfg.resolver)
            && (x.outcome.Failed? ==> x.outcome.kind == a.reply.kind)
            && (x.outcome == Exhausted <==> !again && !seen && cfg.resolver && NoneLeft(env, a))
            && (x.outcome == Stopped <==> seen || again || (cfg.resolver && !NoneLeft(env, a)))
            && (x.outcome == Stopped ==> seen || env.stop(if again then a.at + 2 else a.at + 3))
            && !x.outcome.Answered? && !x.outcome.Crashed?
  {
    hide IsSanitized;
    var a := x.calls[|x.calls| - 1];
    PlacedAt(env, cfg, messages, endpoint, now, x.calls, |x.calls| - 1);
    KindsThatGoAgain(cfg, a);
  }

  lemma KindsThatGoAgain(cfg: Settings, a: Attempt)
    requires a.reply.Error?
    ensures RetriesSame(cfg, a) <==> GoesAgain(cfg, a.reply.kind, a.retry)
  {
  }

  /** A stop right away is the only way to make no call. Every call sends what was sent before, made
      fit for its provider; the first goes to the provider given, and call k + 1 follows a failure:
      to the same provider for a kind worth a retry while it has retries left, and for every other
      kind or no retries left to the provider that was resolved, as the first try of the next round. */
  lemma CallsFollow(env: Environment, cfg: Settings, messages: seq<Message>, endpoint: Endpoint, now: nat,
                    x: Execution, k: nat)
    requires Executed(env, cfg, messages, endpoint, now, x)
    ensures x.calls == [] <==> env.stop(now)
    ensures x.calls == [] ==> x.outcome == Stopped && x.sent == messages
    ensures x.calls != [] ==>
              var a := x.calls[0];
              && a.endpoint == endpoint && a.round == 0 && a.retry == 0 && a.reply == env.reply(a.at)
              && IsSanitized(ProviderOf(endpoint), cfg.validator, messages, a.sent)
    ensures k + 1 < |x.calls| ==>
              var a, b := x.calls[k], x.calls[k + 1];
              && IsSanitized(ProviderOf(b.endpoint), cfg.validator, a.sent, b.sent) && b.reply == env.reply(b.at)
              && a.reply.Error? && a.reply.kind != ContextOverflow && !env.stop(a.at + 1)
              && if GoesAgain(cfg, a.reply.kind, a.retry)
                 then b.endpoint == a.endpoint && b.round == a.round && b.retry == a.retry + 1
                 else cfg.resolver && !NoneLeft(env, a) && b.endpoint == env.resolve(a.at + 2) &&
                      b.round == a.round + 1 && b.retry == 0
  {
    hide IsSanitized;
    if k + 1 < |x.calls| {
      assert LinkedAt(env, cfg, x.calls, k + 1);
      KindsThatGoAgain(cfg, x.calls[k]);
      PlacedAt(env, cfg, messages, endpoint, now, x.calls, k + 1);
    }
  }

  /** Every request an Anthropic provider gets is well-formed, whatever was retried before. */
  lemma RequestsSound(env: Environment, cfg: Settings, messages: seq<Message>, endpoint: Endpoint, now: nat,
                      x: Execution, k: nat)
    requires Executed(env, cfg, messages, endpoint, now, x) && k < |x.calls|
    requires x.calls[k].endpoint.Endpoint? && x.calls[k].endpoint.name == "anthropic"
    ensures NoAdjacent(User, x.calls[k].sent) && ForwardPaired(x.calls[k].sent)
  {
    hide IsSanitized, After, ForwardPaired, NoAdjacent;
    if k > 0 {
      assert LinkedAt(env, cfg, x.calls, k);
    }
    AnthropicRequestSound(cfg.validator, Latest(messages, x.calls[..k]), x.calls[k].sent);
  }

  /** A lasting outage: nobody stops the agent, every call fails in a retryable way, and every
      failover finds another provider. */
  ghost predicate Outage(env: Environment, cfg: Settings) {
    && cfg.resolver
    && (forall t :: !env.stop(t))
    && (forall t :: env.reply(t).Error? && Retryable(env.reply(t).kind))
    && (forall t :: env.resolve(t).Endpoint?)
    && (forall s, t :: s < t ==> env.resolve(s) != env.resolve(t))
  }

  lemma {:induction false} OutageAt(env: Environment, cfg: Settings, messages: seq<Message>, endpoint: Endpoint,
                                    now: nat, calls: seq<Attempt>, k: nat)
    requires Begun(env, cfg, messages, endpoint, now, calls) && k < |calls| && Outage(env, cfg)
    ensures k == calls[k].round * Tries(cfg) + calls[k].retry
    ensures calls[k].round > 0 ==> exists s: nat :: s < calls[k].at && calls[k].endpoint == env.resolve(s)
  {
    hide IsSanitized;
    PlacedAt(env, cfg, messages, endpoint, now, calls, k);
    if k > 0 {
      OutageAt(env, cfg, messages, endpoint, now, calls, k - 1);
      PlacedAt(env, cfg, messages, endpoint, now, calls, k - 1);
      assert LinkedAt(env, cfg, calls, k);
      NextRound(calls[k - 1].round, Tries(cfg));
    }
  }

  /** The round of this call is not left before its retries are used up. */
  predicate UsesItsRetries(cfg: Settings, a: Attempt) {
    RetriesSame(cfg, a) || a.retry == cfg.maxRetries
  }

  lemma NextPlace(env: Environment, cfg: Settings, messages: seq<Message>, endpoint: Endpoint, now: nat,
                  calls: seq<Attempt>, k: nat)
    requires Begun(env, cfg, messages, endpoint, now, calls) && 0 < k < |calls|
    ensures var a, b, tries := calls[k - 1], calls[k], Tries(cfg);
            && b.round * tries + b.retry >= a.round * tries + a.retry + 1
            && (b.round * tries + b.retry == a.round * tries + a.retry + 1 <==> UsesItsRetries(cfg, a))
  {
    hide IsSanitized;
    PlacedAt(env, cfg, messages, endpoint, now, calls, k - 1);
    assert LinkedAt(env, cfg, calls, k);
    NextRound(calls[k - 1].round, Tries(cfg));
  }

  /** A call has as many calls before it as its place allows exactly when all of those used their
      retries. */
  lemma {:induction false} PlaceExactIff(env: Environment, cfg: Settings, messages: seq<Message>, endpoint: Endpoint,
                                         now: nat, calls: seq<Attempt>, k: nat)
    requires Begun(env, cfg, messages, endpoint, now, calls) && k < |calls|
    ensures k == calls[k].round * Tries(cfg) + calls[k].retry <==>
            forall i :: 0 <= i < k ==> UsesItsRetries(cfg, calls[i])
  {
    hide IsSanitized, UsesItsRetries;
    if k > 0 {
      PlacedAt(env, cfg, messages, endpoint, now, calls, k - 1);
      PlaceExactIff(env, cfg, messages, endpoint, now, calls, k - 1);
      NextPlace(env, cfg, messages, endpoint, now, calls, k);
    } else {
      FirstPlace(env, cfg, messages, endpoint, now, calls);
    }
  }

  lemma FirstPlace(env: Environment, cfg: Settings, messages: seq<Message>, endpoint: Endpoint, now: nat,
                   calls: seq<Attempt>)
    requires Begun(env, cfg, messages, endpoint, now, calls) && calls != []
    ensures calls[0].round == 0 && calls[0].retry == 0
  {
    hide IsSanitized;
  }

  /** The bound is met exactly when the last call is the last retry of the last round and every call
      before it failed with its retries used up or to be used. */
  lemma AllAttemptsUsedIff(env: Environment, cfg: Settings, messages: seq<Message>, endpoint: Endpoint, now: nat,
                           x: Execution)
    requires Executed(env, cfg, messages, endpoint, now, x)
    ensures |x.calls| == MAX_FAILOVER_ATTEMPTS * Tries(cfg) <==>
            && x.calls != []
            && x.calls[|x.calls| - 1].round == MAX_FAILOVER_ATTEMPTS - 1
            && x.calls[|x.calls| - 1].retry == cfg.maxRetries
            && forall i :: 0 <= i < |x.calls| - 1 ==> UsesItsRetries(cfg, x.calls[i])
  {
    hide Begun, After, UsesItsRetries;
    if x.calls != [] {
      var k := |x.calls| - 1;
      var last := x.calls[k];
      PlacedAt(env, cfg, messages, endpoint, now, x.calls, k);
      PlaceExactIff(env, cfg, messages, endpoint, now, x.calls, k);
      RoundsTimesTries(last.round, MAX_FAILOVER_ATTEMPTS, Tries(cfg));
      if last.round < MAX_FAILOVER_ATTEMPTS - 1 {
        RoundsTimesTries(last.round, MAX_FAILOVER_ATTEMPTS - 1, Tries(cfg));
      }
    }
  }

  /** A lasting outage is one way to meet it. */
  lemma OutageUsesAllAttempts(env: Environment, cfg: Settings, messages: seq<Message>, endpoint: Endpoint, now: nat,
                              x: Execution)
    requires Executed(env, cfg, messages, endpoint, now, x) && Outage(env, cfg)
    ensures |x.calls| == MAX_FAILOVER_ATTEMPTS * Tries(cfg) && x.outcome == Exhausted
  {
    hide Begun;
    var k := |x.calls| - 1;
    OutageAt(env, cfg, messages, endpoint, now, x.calls, k);
    PlacedAt(env, cfg, messages, endpoint, now, x.calls, k);
    NextRound(x.calls[k].round, Tries(cfg));
    assert !RetriesSame(cfg, x.calls[k]) ==> x.calls[k].retry == cfg.maxRetries;
    if x.calls[k].round > 0 {
      var s: nat :| s < x.calls[k].at && x.calls[k].endpoint == env.resolve(s);
      assert env.resolve(s) != env.resolve(x.calls[k].at + 2);
    }
  }
}
