/** When the recovery from a context overflow can read out of range, told from the request a turn
    starts with. A system message at the front, followed by anything lasting, survives every step of
    every sanitizing; with a system prompt each compaction puts such a pair in front again. */
module OverflowRecovery {
  import opened Seqs
  import opened Messages
  import opened ToolPairing
  import opened TurnMerging
  import opened TurnCollapse
  import opened ReplayTrim
  import opened TurnValidator
  import opened RequestSanitizer
  import opened ProviderRetry
  import opened AgentTurns
  import opened AgentLaws

  // ---------------------------------------------------------------------
  // Messages that no sanitizing removes
  // ---------------------------------------------------------------------

  /** A user message in which the user speaks, or any other message that is not empty. */
  predicate Lasting(m: Message) {
    if m.role.User? then HasWords(m) else m.content != []
  }

  ghost predicate HasLasting(ms: seq<Message>) {
    exists m :: m in ms && Lasting(m)
  }

  predicate IsLead(m: Message) {
    m.role.System? && m.content != []
  }

  /** A system message at the front, and something lasting after it. */
  ghost predicate Anchored(ms: seq<Message>) {
    ms != [] && IsLead(ms[0]) && HasLasting(ms[1..])
  }

  lemma AnchoredSize(ms: seq<Message>)
    requires Anchored(ms)
    ensures |ms| >= 2
  {
  }

  lemma LastingConcat(a: seq<Message>, b: seq<Message>)
    ensures HasLasting(a + b) <==> HasLasting(a) || HasLasting(b)
  {
    hide Lasting;
    assert forall m :: m in a + b <==> m in a || m in b;
  }

  lemma LastingOne(m: Message)
    ensures HasLasting([m]) <==> Lasting(m)
  {
    hide Lasting;
    assert m in [m];
  }

  lemma LastingCons(ms: seq<Message>)
    requires ms != []
    ensures HasLasting(ms) <==> Lasting(ms[0]) || HasLasting(ms[1..])
  {
    hide Lasting, HasLasting;
    LastingConcat([ms[0]], ms[1..]);
    LastingOne(ms[0]);
    assert ms == [ms[0]] + ms[1..];
  }

  lemma NoneLasting()
    ensures !HasLasting([])
  {
  }

  // Repair

  lemma RepairOneLasting(open: set<string>, m: Message, answered: set<string>)
    requires Lasting(m)
    ensures HasLasting(RepairOne(open, m, answered))
  {
    if m.role.User? {
      KeepResultsMembers(m.content, open);
      var b :| b in m.content && !b.kind.ToolResult?;
      assert b in KeepResults(m.content, open);
      LastingOne(RepairUser(m, open)[0]);
      assert RepairUser(m, open) == [RepairUser(m, open)[0]];
    } else {
      LastingOne(RepairOne(open, m, answered)[0]);
    }
  }

  lemma {:induction false} RepairLasting(open: set<string>, ms: seq<Message>)
    requires HasLasting(ms)
    ensures HasLasting(RepairFrom(open, ms))
    decreases ms
  {
    hide Lasting, HasLasting, RepairOne;
    if ms != [] {
      LastingCons(ms);
      var one, rest := RepairOne(open, ms[0], NextResultIds(ms[1..])), RepairFrom(PendingIds(ms[0]), ms[1..]);
      LastingConcat(one, rest);
      if Lasting(ms[0]) {
        RepairOneLasting(open, ms[0], NextResultIds(ms[1..]));
      } else {
        RepairLasting(PendingIds(ms[0]), ms[1..]);
      }
    } else {
      NoneLasting();
    }
  }

  lemma RepairAnchored(ms: seq<Message>)
    requires Anchored(ms)
    ensures Anchored(Repair(ms))
  {
    hide Lasting, HasLasting;
    RepairLasting({}, ms[1..]);
    Cons(ms[0], RepairFrom({}, ms[1..]));
  }

  // Collapse

  /** In a repaired list the user message after an answer without calls speaks. */
  lemma FourthSpeaks(open: set<string>, ms: seq<Message>)
    requires CanCollapse(ms) && PairedFrom(open, ms) && Tidy(ms)
    ensures Lasting(ms[3]) && PairedFrom({}, ms[3..]) && Tidy(ms[3..])
  {
    CollapsedStep(open, ms);
    assert ms[3..][0] == ms[3];
    assert TidyMessage(ms[3]);
    assert ms[3].content[0] in ms[3].content;
  }

  lemma {:induction false} CollapseLasting(open: set<string>, ms: seq<Message>)
    requires HasLasting(ms) && PairedFrom(open, ms) && Tidy(ms)
    ensures HasLasting(Collapse(ms))
    decreases |ms|
  {
    hide Lasting, HasLasting, TidyMessage;
    if ms == [] {
      NoneLasting();
    } else if CanCollapse(ms) {
      FourthSpeaks(open, ms);
      LastingCons(ms[3..]);
      CollapseLasting({}, ms[3..]);
      LastingConcat([ms[2]], Collapse(ms[3..]));
    } else {
      LastingCons(ms);
      LastingConcat([ms[0]], Collapse(ms[1..]));
      LastingOne(ms[0]);
      if HasLasting(ms[1..]) {
        CollapseLasting(PendingIds(ms[0]), ms[1..]);
      }
    }
  }

  lemma CollapseAnchored(ms: seq<Message>)
    requires Anchored(ms) && PairedFrom({}, ms) && Tidy(ms)
    ensures Anchored(Collapse(ms))
  {
    hide Lasting, HasLasting, TidyMessage;
    CollapseLasting(PendingIds(ms[0]), ms[1..]);
    Cons(ms[0], Collapse(ms[1..]));
  }

  // Merging

  lemma JoinLasting(a: Message, b: Message, rule: StampRule)
    requires a.role == b.role && (Lasting(a) || Lasting(b))
    ensures Lasting(Join(a, b, rule))
  {
    var j := Join(a, b, rule);
    if a.role.User? {
      var m := if HasWords(a) then a else b;
      var x :| x in m.content && !x.kind.ToolResult?;
      assert x in j.content;
    }
  }

  lemma {:induction false} MergeLasting(role: Role, rule: StampRule, ms: seq<Message>)
    requires HasLasting(ms)
    ensures HasLasting(Merge(role, rule, ms))
    decreases |ms|
  {
    hide Lasting, HasLasting, Join;
    if |ms| >= 2 {
      LastingCons(ms);
      if ms[0].role == role && ms[1].role == role {
        var joined := [Join(ms[0], ms[1], rule)] + ms[2..];
        LastingCons(ms[1..]);
        assert ms[1..][1..] == ms[2..] && ms[1..][0] == ms[1];
        LastingConcat([Join(ms[0], ms[1], rule)], ms[2..]);
        LastingOne(Join(ms[0], ms[1], rule));
        if !HasLasting(ms[2..]) {
          JoinLasting(ms[0], ms[1], rule);
        }
        MergeLasting(role, rule, joined);
      } else {
        LastingConcat([ms[0]], Merge(role, rule, ms[1..]));
        LastingOne(ms[0]);
        if HasLasting(ms[1..]) {
          MergeLasting(role, rule, ms[1..]);
        }
      }
    }
  }

  lemma MergeAnchored(role: Role, rule: StampRule, ms: seq<Message>)
    requires Anchored(ms) && !role.System?
    ensures Anchored(Merge(role, rule, ms))
  {
    hide Lasting, HasLasting, Join;
    AnchoredSize(ms);
    MergeLasting(role, rule, ms[1..]);
    Cons(ms[0], Merge(role, rule, ms[1..]));
  }

  // Trimming and the hint

  lemma TrimAnchored(ms: seq<Message>, trimmed: seq<Message>)
    requires Anchored(ms) && IsTrimmed(ms, trimmed)
    ensures Anchored(trimmed)
  {
    if TrimApplies(ms) {
      var t: nat :| IsTurnStart(ms, LeadingSystem(ms), t) && trimmed == ms[..LeadingSystem(ms)] + ms[t..];
      var n := LeadingSystem(ms);
      assert n >= 1 && trimmed[0] == ms[0];
      assert trimmed[1..] == ms[1..n] + ms[t..];
      assert ms[t] in ms[t..] && Lasting(ms[t]);
      LastingConcat(ms[1..n], ms[t..]);
    }
  }

  lemma HintAnchored(ms: seq<Message>, names: set<string>, hint: string)
    requires Anchored(ms)
    ensures Anchored(AddHint(ms, names, hint))
  {
    hide Lasting, HasLasting, Hinted;
    var n := LeadingSystem(ms);
    if AddHint(ms, names, hint) != ms {
      assert n >= 1;
      var hinted := ms[..n] + [TextMessage(System, hint)] + ms[n..];
      assert hinted[0] == ms[0];
      assert hinted[1..] == ms[1..n] + ([TextMessage(System, hint)] + ms[n..]);
      assert ms[1..] == ms[1..n] + ms[n..];
      LastingConcat(ms[1..n], ms[n..]);
      LastingConcat(ms[1..n], [TextMessage(System, hint)] + ms[n..]);
      LastingConcat([TextMessage(System, hint)], ms[n..]);
    }
  }

  // The validator

  lemma StripOneLasting(m: Message, rest: seq<Message>)
    requires Lasting(m)
    ensures Lasting(StripOne(m, rest))
  {
  }

  lemma {:induction false} StripLasting(ms: seq<Message>)
    requires HasLasting(ms)
    ensures HasLasting(Strip(ms))
  {
    hide Lasting, HasLasting, StripOne;
    if ms == [] {
      NoneLasting();
    } else {
      LastingCons(ms);
      LastingConcat([StripOne(ms[0], ms[1..])], Strip(ms[1..]));
      LastingOne(StripOne(ms[0], ms[1..]));
      if Lasting(ms[0]) {
        StripOneLasting(ms[0], ms[1..]);
      } else {
        StripLasting(ms[1..]);
      }
    }
  }

  lemma StripAnchored(ms: seq<Message>)
    requires Anchored(ms)
    ensures Anchored(Strip(ms))
  {
    hide Lasting, HasLasting;
    StripLasting(ms[1..]);
    Cons(ms[0], Strip(ms[1..]));
  }

  lemma LastingHasContent(m: Message)
    requires Lasting(m)
    ensures m.content != []
  {
  }

  lemma {:induction false} WithContentLasting(ms: seq<Message>)
    requires HasLasting(ms)
    ensures HasLasting(WithContent(ms))
  {
    hide Lasting, HasLasting;
    if ms == [] {
      NoneLasting();
    } else {
      LastingCons(ms);
      var kept := if ms[0].content == [] then [] else [ms[0]];
      LastingConcat(kept, WithContent(ms[1..]));
      if Lasting(ms[0]) {
        LastingHasContent(ms[0]);
        LastingOne(ms[0]);
      } else {
        WithContentLasting(ms[1..]);
      }
    }
  }

  lemma WithContentAnchored(ms: seq<Message>)
    requires Anchored(ms)
    ensures Anchored(WithContent(ms))
  {
    hide Lasting, HasLasting;
    WithContentLasting(ms[1..]);
    Cons(ms[0], WithContent(ms[1..]));
  }

  lemma ValidatedAnchored(ms: seq<Message>, provider: string)
    requires Anchored(ms)
    ensures Anchored(Validated(ms, provider))
  {
    hide Anchored;
    if provider == "anthropic" {
      StripAnchored(ms);
      WithContentAnchored(Strip(ms));
      MergeAnchored(User, LatestStamp, WithContent(Strip(ms)));
    } else if provider == "google" || provider == "gemini" {
      WithContentAnchored(ms);
      MergeAnchored(Assistant, LatestStamp, WithContent(ms));
    }
  }

  /** A system message at the front and something lasting after it survive every sanitizing, whatever
      the provider. */
  lemma SanitizedAnchored(provider: Provider, validator: bool, ms: seq<Message>, sent: seq<Message>)
    requires Anchored(ms) && IsSanitized(provider, validator, ms, sent)
    ensures Anchored(sent)
  {
    hide Anchored, IsTrimmed, AddHint, Validated, Collapse, Merge, Repair, Tidy, PairedFrom;
    if provider == Provider.Provider("anthropic") {
      var trimmed :| IsTrimmed(Merged(ms), trimmed) &&
        sent == Finish(provider, validator, AddHint(trimmed, TrailingReplayNames(trimmed), REPLAY_HINT));
      MergedAnchored(ms);
      TrimAnchored(Merged(ms), trimmed);
      var hinted := AddHint(trimmed, TrailingReplayNames(trimmed), REPLAY_HINT);
      HintAnchored(trimmed, TrailingReplayNames(trimmed), REPLAY_HINT);
      ValidatedAnchored(hinted, provider.name);
    } else if provider.Provider? {
      ValidatedAnchored(ms, provider.name);
    }
  }

  lemma MergedAnchored(ms: seq<Message>)
    requires Anchored(ms)
    ensures Anchored(Merged(ms))
  {
    hide Anchored, Collapse, Merge, Repair, Tidy, Paired, PairedFrom;
    RepairAnchored(ms);
    RepairPaired(ms);
    PairedIff(Repair(ms));
    RepairFixpoints(Repair(ms));
    RepairIdempotent(ms);
    CollapseAnchored(Repair(ms));
    MergeAnchored(User, FirstStamp, Collapse(Repair(ms)));
  }

  // ---------------------------------------------------------------------
  // Through the calls and passes of a turn
  // ---------------------------------------------------------------------

  lemma {:induction false} CallsAnchored(env: Environment, cfg: Settings, messages: seq<Message>, endpoint: Endpoint,
                                         now: nat, calls: seq<Attempt>, k: nat)
    requires ProviderRetry.Begun(env, cfg, messages, endpoint, now, calls) && k < |calls| && Anchored(messages)
    ensures Anchored(calls[k].sent)
  {
    hide Anchored, IsSanitized, After;
    if k == 0 {
      SanitizedAnchored(ProviderOf(calls[0].endpoint), cfg.validator, messages, calls[0].sent);
    } else {
      CallsAnchored(env, cfg, messages, endpoint, now, calls, k - 1);
      assert LinkedAt(env, cfg, calls, k);
      SanitizedAnchored(ProviderOf(calls[k].endpoint), cfg.validator, calls[k - 1].sent, calls[k].sent);
    }
  }

  lemma SentAnchored(env: Environment, cfg: Settings, messages: seq<Message>, endpoint: Endpoint, now: nat,
                     x: Execution)
    requires Executed(env, cfg, messages, endpoint, now, x) && Anchored(messages)
    ensures Anchored(x.sent)
  {
    hide Anchored, ProviderRetry.Begun, After;
    if x.calls != [] {
      CallsAnchored(env, cfg, messages, endpoint, now, x.calls, |x.calls| - 1);
    }
  }

  lemma AppendAnchored(ms: seq<Message>, more: seq<Message>)
    requires Anchored(ms)
    ensures Anchored(ms + more)
  {
    hide Lasting, HasLasting;
    assert (ms + more)[0] == ms[0] && (ms + more)[1..] == ms[1..] + more;
    LastingConcat(ms[1..], more);
  }

  lemma NoticeIsLead()
    ensures IsLead(TextMessage(System, OVERFLOW_NOTICE)) && Lasting(TextMessage(System, OVERFLOW_NOTICE))
  {
  }

  /** With a prompt the recovery anchors any request by itself. */
  lemma PromptAnchors(turn: Turn, ms: seq<Message>)
    requires |ms| >= 2 && turn.systemPrompt != ""
    ensures Anchored(Compacted(turn, ms))
  {
    hide Lasting, HasLasting;
    var notice, kept := TextMessage(System, OVERFLOW_NOTICE), ms[|ms| - KeptOnOverflow(|ms|)..];
    var c := Compacted(turn, ms);
    assert c[0] == TextMessage(System, turn.systemPrompt) && c[1..] == [notice] + kept;
    LastingConcat([notice], kept);
    LastingOne(notice);
    NoticeIsLead();
  }

  lemma PassAnchored(env: Environment, turn: Turn, before: State, x: Execution)
    requires Anchored(x.sent) && turn.systemPrompt != ""
    ensures var r := AfterPass(env, turn, before, x);
            r != Over(OutOfRange) && (r.Continue? ==> Anchored(r.state.messages))
  {
    hide Anchored, Exchange, ToolTexts, Truncated, Compacted, TrailingReplayNames;
    AnchoredSize(x.sent);
    if x.outcome.Answered? {
      var response := x.outcome.response;
      AppendAnchored(x.sent, Exchange(response, Truncated(turn, ToolTexts(env, response.toolCalls, x.now))));
      AppendAnchored(x.sent, [AssistantText(response.content), UserText(turn.lookupCorrection)]);
      AppendAnchored(x.sent, [AssistantText(response.content), UserText(turn.searchCorrection)]);
    } else {
      PromptAnchors(turn, x.sent);
    }
  }

  lemma {:induction false} PassesAnchored(env: Environment, turn: Turn, start: State, passes: seq<Pass>, k: nat)
    requires AgentTurns.Begun(env, turn, start, passes) && k < |passes|
    requires Anchored(start.messages) && turn.systemPrompt != ""
    ensures Anchored(passes[k].before.messages) && Anchored(passes[k].exec.sent)
  {
    hide Anchored, AgentTurns.Begun, AfterPass, Executed;
    PassAt(env, turn, start, passes, k);
    if k > 0 {
      PassesAnchored(env, turn, start, passes, k - 1);
      PassAnchored(env, turn, passes[k - 1].before, passes[k - 1].exec);
    }
    SentAnchored(env, turn.settings, passes[k].before.messages, passes[k].before.endpoint, passes[k].before.now + 1,
                 passes[k].exec);
  }

  lemma {:induction false} SpokenLasting(ms: seq<Message>)
    requires UserWords(ms) != []
    ensures HasLasting(ms)
  {
    hide HasLasting, Lasting;
    LastingCons(ms);
    if WordsOfMessage(ms[0]) != [] {
      SpeaksLasting(ms[0]);
    } else {
      assert UserWords(ms) == UserWords(ms[1..]);
      SpokenLasting(ms[1..]);
    }
  }

  lemma SpeaksLasting(m: Message)
    requires WordsOfMessage(m) != []
    ensures Lasting(m)
  {
    if !HasWords(m) {
      OnlyResultsNoWords(m.content);
    }
  }

  /** With a system prompt, a turn whose request has a system message at its head and something a user
      said never reads out of range, whatever providers, tools and errors it meets. */
  lemma PromptedNeverOutOfRange(env: Environment, turn: Turn, request: seq<Message>, provider: Endpoint, now: nat,
                                passes: seq<Pass>, result: TurnResult)
    requires turn.systemPrompt != "" && request != [] && IsLead(request[0]) && UserWords(request) != []
    requires TurnOf(env, turn, StartOf(turn, request, provider, now), passes, result)
    ensures result != OutOfRange
  {
    hide AgentTurns.Begun, AfterPass, HasLasting, Lasting;
    SpokenLasting(request[1..]);
    if passes != [] {
      var k := |passes| - 1;
      PassesAnchored(env, turn, StartOf(turn, request, provider, now), passes, k);
      PassAnchored(env, turn, passes[k].before, passes[k].exec);
    }
  }
}
