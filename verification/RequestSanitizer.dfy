/** sanitize_request_messages_for_provider: every step between the conversation and the request
    that is sent, in order. */
module RequestSanitizer {
  import opened Seqs
  import opened Messages
  import opened ToolPairing
  import opened TurnCollapse
  import opened TurnMerging
  import opened ReplayTrim
  import opened TurnValidator

  /** A missing provider is None; `validator` says whether a turn validator is configured. */
  datatype Provider = NoProvider | Provider(name: string)

  function Merged(ms: seq<Message>): seq<Message> {
    Merge(User, FirstStamp, Collapse(Repair(ms)))
  }

  function Finish(provider: Provider, validator: bool, ms: seq<Message>): seq<Message> {
    if validator && provider.Provider? then Validated(ms, provider.name) else ms
  }

  ghost predicate IsSanitized(provider: Provider, validator: bool, ms: seq<Message>, sent: seq<Message>) {
    if provider == Provider("anthropic") then
      exists trimmed :: IsTrimmed(Merged(ms), trimmed) &&
        sent == Finish(provider, validator, AddHint(trimmed, TrailingReplayNames(trimmed), REPLAY_HINT))
    else sent == Finish(provider, validator, ms)
  }

  method SanitizeRequestMessages(provider: Provider, validator: bool, messages: seq<Message>)
    returns (sent: seq<Message>)
    ensures IsSanitized(provider, validator, messages, sent)
  {
    sent := messages;
    if provider == Provider("anthropic") {
      sent := RepairAnthropicToolPairing(sent);
      sent := CollapseCompletedToolTurns(sent);
      sent := MergeConsecutiveUserMessages(sent);
      sent := TrimReplayToCurrentTurn(sent);
      var names := CollectTrailingReplayToolNames(sent);
      sent := MaybeAddReplayInstruction(sent, names, REPLAY_HINT);
    }
    if validator && provider.Provider? {
      sent := ValidateAndFix(sent, provider.name);
    }
  }

  // ---------------------------------------------------------------------
  // The whole pipeline
  // ---------------------------------------------------------------------

  lemma MergedLaws(ms: seq<Message>)
    ensures Paired(Merged(ms)) && NoAdjacent(User, Merged(ms))
    ensures UserWords(Merged(ms)) == UserWords(ms)
  {
    RepairPaired(ms);
    RepairRemovesNothingElse(ms);
    PairedIff(Repair(ms));
    CollapsePaired({}, Repair(ms));
    CollapseUserWords(Repair(ms));
    MergeUsersPaired({}, FirstStamp, Collapse(Repair(ms)));
    MergeUserWords(User, FirstStamp, Collapse(Repair(ms)));
    MergeNoAdjacent(User, FirstStamp, Collapse(Repair(ms)));
    PairedIff(Merged(ms));
  }

  /** Whatever the conversation, the request sent to Anthropic never has two user messages in a
      row and every call with an id is answered by the message right after it; what remains of the
      users' own words is the end of what they said, and is empty only if they said nothing. */
  lemma AnthropicRequestSound(validator: bool, ms: seq<Message>, sent: seq<Message>)
    requires IsSanitized(Provider("anthropic"), validator, ms, sent)
    ensures NoAdjacent(User, sent)
    ensures ForwardPaired(sent)
    ensures exists earlier :: UserWords(ms) == earlier + UserWords(sent)
    ensures UserWords(sent) == [] ==> UserWords(ms) == []
  {
    var trimmed :| IsTrimmed(Merged(ms), trimmed) &&
      sent == Finish(Provider("anthropic"), validator, AddHint(trimmed, TrailingReplayNames(trimmed), REPLAY_HINT));
    var names := TrailingReplayNames(trimmed);
    var hinted := AddHint(trimmed, names, REPLAY_HINT);
    MergedLaws(ms);
    PairedIff(Merged(ms));
    PairedIsForward({}, Merged(ms));
    TrimForward(Merged(ms), trimmed);
    TrimNoAdjacent(Merged(ms), trimmed);
    TrimUserWords(Merged(ms), trimmed);
    AddHintForward(trimmed, names, REPLAY_HINT);
    AddHintNoAdjacent(trimmed, names, REPLAY_HINT);
    AddHintUserWords(trimmed, names, REPLAY_HINT);
    ForwardIff(hinted);
    FixAnthropicLaws(hinted);
  }

  /** A conversation that already has the required shape and needs no replay treatment. */
  ghost predicate Settled(ms: seq<Message>) {
    && Paired(ms) && Tidy(ms) && NoAdjacent(User, ms)
    && (forall m :: m in ms ==> m.content != [])
    && (forall m :: m in ms && m.role.Assistant? && HasCalls(m) ==> ToolUseIds(m.content) != {})
    && (forall i :: 0 <= i < |ms| ==> !CanCollapse(ms[i..]))
    && !TrimApplies(ms)
    && "web_search" !in TrailingReplayNames(ms)
  }

  /** Such a conversation is sent as it is. */
  lemma SettledUnchanged(validator: bool, ms: seq<Message>, sent: seq<Message>)
    requires IsSanitized(Provider("anthropic"), validator, ms, sent) && Settled(ms)
    ensures sent == ms
  {
    RepairFixpoints(ms);
    CollapseUnchanged(ms);
    MergeUnchanged(User, FirstStamp, ms);
    PairedIff(ms);
    PairedIsForward({}, ms);
    StripUnchanged(ms);
    WithContentAll(ms);
    MergeUnchanged(User, LatestStamp, ms);
  }
}
