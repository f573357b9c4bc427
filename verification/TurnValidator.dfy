/** The turn validator's built-in fixes for Anthropic and Gemini message sequences. */
module TurnValidator {
  import opened Seqs
  import opened Messages
  import opened ToolPairing
  import opened TurnCollapse
  import opened TurnMerging

  function StripOne(m: Message, rest: seq<Message>): Message {
    if m.role.Assistant? && rest != [] && rest[0].role.User? && HasCalls(m)
    then Message(m.role, OrOmitted(KeepCalls(m.content, NextResultIds(rest))), "")
    else m
  }

  /** Drops the calls of an assistant message that the user message after it leaves unanswered. */
  function Strip(ms: seq<Message>): seq<Message> {
    if ms == [] then [] else [StripOne(ms[0], ms[1..])] + Strip(ms[1..])
  }

  function FixAnthropic(ms: seq<Message>): seq<Message> {
    Merge(User, LatestStamp, WithContent(Strip(ms)))
  }

  function FixGoogle(ms: seq<Message>): seq<Message> {
    Merge(Assistant, LatestStamp, WithContent(ms))
  }

  /** The validators registered by the constructor. */
  function Validated(ms: seq<Message>, provider: string): seq<Message> {
    if provider == "anthropic" then FixAnthropic(ms)
    else if provider == "google" || provider == "gemini" then FixGoogle(ms)
    else ms
  }

  method StripDanglingToolUses(messages: seq<Message>) returns (result: seq<Message>)
    ensures result == Strip(messages)
  {
    result := [];
    Whole(messages);
    for i := 0 to |messages|
      invariant result + Strip(messages[i..]) == Strip(messages)
    {
      var msg := messages[i];
      SplitAt(messages, i);
      var out := StripMessage(msg, messages[i + 1..]);
      Assoc(result, [out], Strip(messages[i + 1..]));
      result := result + [out];
    }
  }

  method StripMessage(msg: Message, rest: seq<Message>) returns (out: Message)
    ensures out == StripOne(msg, rest)
  {
    var nextIsUser := rest != [] && rest[0].role.User?;
    if !msg.role.Assistant? || !nextIsUser {
      return msg;
    }
    var answers := rest[0].content;
    var valid: set<string> := {};
    for i := 0 to |answers|
      invariant valid == ResultIds(answers[..i])
    {
      SplitAt(answers, i);
      if answers[i].kind.ToolResult? && answers[i].toolUseId != "" {
        valid := valid + {answers[i].toolUseId};
      }
    }
    Whole(answers);
    var hasToolUse := HasToolUseBlocks(msg);
    if !hasToolUse {
      return msg;
    }
    var filtered := FilterAssistantBlocks(msg.content, valid);
    if filtered == [] && msg.content != [] {
      return Message(msg.role, [OMITTED], "");
    }
    return Message(msg.role, filtered, "");
  }

  method ValidateAndFix(messages: seq<Message>, provider: string) returns (fixed: seq<Message>)
    ensures fixed == Validated(messages, provider)
  {
    if provider == "anthropic" {
      var stripped := StripDanglingToolUses(messages);
      fixed := MergeConsecutiveRole(stripped, User);
    } else if provider == "google" || provider == "gemini" {
      fixed := MergeConsecutiveRole(messages, Assistant);
    } else {
      fixed := messages;
    }
  }

  // ---------------------------------------------------------------------
  // Laws
  // ---------------------------------------------------------------------

  /** After stripping, an assistant message before a user message holds only answered calls. */
  lemma StrippedIds(m: Message, rest: seq<Message>)
    ensures m.role.Assistant? && rest != [] && rest[0].role.User? ==>
              ToolUseIds(StripOne(m, rest).content) == ToolUseIds(m.content) * NextResultIds(rest)
  {
    if m.role.Assistant? && rest != [] && rest[0].role.User? {
      var valid := NextResultIds(rest);
      KeepCallsMembers(m.content, valid);
      assert ToolUseIds([OMITTED]) == {};
      if HasCalls(m) {
        forall id | id in ToolUseIds(m.content) * valid ensures id in ToolUseIds(KeepCalls(m.content, valid)) {
          var b :| b in m.content && b.kind.ToolUse? && b.id == id && b.id != "";
          assert b in KeepCalls(m.content, valid);
        }
        assert "" !in valid;
      } else {
        assert ToolUseIds(m.content) == {};
      }
    }
  }

  lemma StripNextResults(ms: seq<Message>)
    ensures NextResultIds(Strip(ms)) == NextResultIds(ms)
  {
  }

  lemma {:induction false} StripForward(ms: seq<Message>)
    requires ForwardFrom(ms)
    ensures ForwardFrom(Strip(ms))
  {
    if ms != [] {
      StripForward(ms[1..]);
      StrippedIds(ms[0], ms[1..]);
      StripNextResults(ms[1..]);
      Cons(StripOne(ms[0], ms[1..]), Strip(ms[1..]));
    }
  }

  lemma {:induction false} StripUserWords(ms: seq<Message>)
    ensures UserWords(Strip(ms)) == UserWords(ms)
  {
    if ms != [] {
      StripUserWords(ms[1..]);
      Cons(StripOne(ms[0], ms[1..]), Strip(ms[1..]));
    }
  }

  lemma {:induction false} StripUnchanged(ms: seq<Message>)
    requires ForwardFrom(ms) && Tidy(ms)
    requires forall m :: m in ms && m.role.Assistant? && HasCalls(m) ==> ToolUseIds(m.content) != {}
    ensures Strip(ms) == ms
  {
    if ms != [] {
      StripUnchanged(ms[1..]);
      var m, rest := ms[0], ms[1..];
      if m.role.Assistant? && rest != [] && rest[0].role.User? && HasCalls(m) {
        assert TidyMessage(m);
        forall b | b in m.content ensures CallKept(b, NextResultIds(rest)) {
          assert b.kind.ToolUse? ==> b.id in PendingIds(m);
        }
        KeepCallsAll(m.content, NextResultIds(rest));
      }
    }
  }

  lemma FixAnthropicLaws(ms: seq<Message>)
    ensures NoAdjacent(User, FixAnthropic(ms))
    ensures ForwardPaired(ms) ==> ForwardPaired(FixAnthropic(ms))
    ensures UserWords(FixAnthropic(ms)) == UserWords(ms)
  {
    MergeNoAdjacent(User, LatestStamp, WithContent(Strip(ms)));
    StripUserWords(ms);
    WithContentUserWords(Strip(ms));
    MergeUserWords(User, LatestStamp, WithContent(Strip(ms)));
    ForwardIff(ms);
    ForwardIff(FixAnthropic(ms));
    if ForwardPaired(ms) {
      StripForward(ms);
      WithContentForward(Strip(ms));
      MergeUsersForward(LatestStamp, WithContent(Strip(ms)));
    }
  }

  lemma {:induction false} WithContentFlatten(ms: seq<Message>)
    ensures Flatten(WithContent(ms)) == Flatten(ms)
  {
    if ms != [] {
      WithContentFlatten(ms[1..]);
      if ms[0].content != [] {
        Cons(ms[0], WithContent(ms[1..]));
      } else {
        assert WithContent(ms) == WithContent(ms[1..]);
        assert Flatten(ms) == [] + Flatten(ms[1..]);
      }
    }
  }

  /** The Gemini fix leaves no two adjacent assistant messages and every block in its place. */
  lemma FixGoogleLaws(ms: seq<Message>)
    ensures NoAdjacent(Assistant, FixGoogle(ms))
    ensures Flatten(FixGoogle(ms)) == Flatten(ms)
  {
    MergeNoAdjacent(Assistant, LatestStamp, WithContent(ms));
    MergeFlatten(Assistant, LatestStamp, WithContent(ms));
    WithContentFlatten(ms);
  }
}
