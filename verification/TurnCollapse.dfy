/** collapse_completed_anthropic_tool_turns: a finished tool turn (calls, results only, an answer
    without calls, then a user message) is replaced by its answer. */
module TurnCollapse {
  import opened Seqs
  import opened Messages

  predicate HasCalls(m: Message) {
    exists b :: b in m.content && b.kind.ToolUse?
  }

  predicate OnlyResults(m: Message) {
    m.role.User? && m.content != [] && forall b :: b in m.content ==> b.kind.ToolResult?
  }

  predicate CanCollapse(ms: seq<Message>) {
    && |ms| > 3
    && ms[0].role.Assistant? && HasCalls(ms[0])
    && OnlyResults(ms[1])
    && ms[2].role.Assistant? && !HasCalls(ms[2])
    && ms[3].role.User?
  }

  function Collapse(ms: seq<Message>): seq<Message>
    decreases |ms|
  {
    if ms == [] then []
    else if CanCollapse(ms) then [ms[2]] + Collapse(ms[3..])
    else [ms[0]] + Collapse(ms[1..])
  }

  method HasToolUseBlocks(m: Message) returns (has: bool)
    ensures has <==> HasCalls(m)
  {
    for i := 0 to |m.content|
      invariant forall k :: 0 <= k < i ==> !m.content[k].kind.ToolUse?
    {
      if m.content[i].kind.ToolUse? {
        return true;
      }
    }
    return false;
  }

  method HasOnlyToolResultBlocks(m: Message) returns (only: bool)
    ensures only <==> OnlyResults(m)
  {
    if !m.role.User? || m.content == [] {
      return false;
    }
    for i := 0 to |m.content|
      invariant forall k :: 0 <= k < i ==> m.content[k].kind.ToolResult?
    {
      if !m.content[i].kind.ToolResult? {
        return false;
      }
    }
    return true;
  }

  method CollapseCompletedToolTurns(messages: seq<Message>) returns (collapsed: seq<Message>)
    ensures collapsed == Collapse(messages)
  {
    collapsed := [];
    Whole(messages);
    var i := 0;
    while i < |messages|
      invariant 0 <= i <= |messages|
      invariant collapsed + Collapse(messages[i..]) == Collapse(messages)
    {
      var msg := messages[i];
      var canCollapse := i + 3 < |messages| && msg.role.Assistant?;
      if canCollapse {
        canCollapse := HasToolUseBlocks(msg);
      }
      if canCollapse {
        canCollapse := HasOnlyToolResultBlocks(messages[i + 1]);
      }
      if canCollapse && messages[i + 2].role.Assistant? {
        var answerCalls := HasToolUseBlocks(messages[i + 2]);
        canCollapse := !answerCalls && messages[i + 3].role.User?;
      } else {
        canCollapse := false;
      }
      var tail := messages[i..];
      assert tail[0] == msg;
      assert |tail| > 3 ==>
          tail[1] == messages[i + 1] && tail[2] == messages[i + 2] && tail[3] == messages[i + 3];
      assert canCollapse == CanCollapse(tail);
      if !canCollapse {
        assert tail[1..] == messages[i + 1..];
        Assoc(collapsed, [msg], Collapse(messages[i + 1..]));
        collapsed := collapsed + [msg];
      } else {
        assert tail[3..] == messages[i + 3..];
        Assoc(collapsed, [messages[i + 2]], Collapse(messages[i + 3..]));
        collapsed := collapsed + [messages[i + 2]];
        i := i + 2;
      }
      i := i + 1;
    }
  }

  // ---------------------------------------------------------------------
  // Laws
  // ---------------------------------------------------------------------

  lemma {:induction false} CollapsePaired(open: set<string>, ms: seq<Message>)
    requires PairedFrom(open, ms)
    ensures PairedFrom(open, Collapse(ms))
    decreases |ms|
  {
    if ms == [] {
    } else if CanCollapse(ms) {
      CollapsedStep(open, ms);
      CollapsePaired({}, ms[3..]);
      Cons(ms[2], Collapse(ms[3..]));
      assert ToolUseIds(ms[2].content) == {};
    } else {
      CollapsePaired(PendingIds(ms[0]), ms[1..]);
      CollapseNextResults(ms[1..]);
      Cons(ms[0], Collapse(ms[1..]));
    }
  }

  lemma CollapsedStep(open: set<string>, ms: seq<Message>)
    requires CanCollapse(ms) && PairedFrom(open, ms)
    ensures PairedFrom({}, ms[3..])
  {
    assert ms[1..][1..] == ms[2..] && ms[2..][1..] == ms[3..];
    assert PairedFrom(PendingIds(ms[1]), ms[2..]);
    assert ToolUseIds(ms[2].content) == {};
  }

  /** A user message at the front stays at the front. */
  lemma CollapseNextResults(ms: seq<Message>)
    ensures NextResultIds(ms) <= NextResultIds(Collapse(ms))
  {
  }

  /** No word a user wrote is lost: the user messages that disappear held results only. */
  lemma {:induction false} CollapseUserWords(ms: seq<Message>)
    ensures UserWords(Collapse(ms)) == UserWords(ms)
    decreases |ms|
  {
    if ms == [] {
    } else if CanCollapse(ms) {
      CollapseUserWords(ms[3..]);
      OnlyResultsNoWords(ms[1].content);
      assert ms[1..][1..] == ms[2..] && ms[2..][1..] == ms[3..];
      assert ms[1..][0] == ms[1] && ms[2..][0] == ms[2];
      assert UserWords(ms[2..]) == UserWords(ms[3..]);
      assert UserWords(ms[1..]) == UserWords(ms[2..]);
      Cons(ms[2], Collapse(ms[3..]));
    } else {
      CollapseUserWords(ms[1..]);
      Cons(ms[0], Collapse(ms[1..]));
    }
  }

  lemma {:induction false} OnlyResultsNoWords(blocks: seq<Block>)
    requires forall b :: b in blocks ==> b.kind.ToolResult?
    ensures Words(blocks) == []
  {
    if blocks != [] {
      OnlyResultsNoWords(blocks[1..]);
    }
  }

  /** A list is left alone exactly when no turn in it is complete. */
  lemma {:induction false} CollapseUnchanged(ms: seq<Message>)
    ensures Collapse(ms) == ms <==> forall i :: 0 <= i < |ms| ==> !CanCollapse(ms[i..])
    ensures |Collapse(ms)| <= |ms|
    decreases |ms|
  {
    if ms == [] {
    } else if CanCollapse(ms) {
      CollapseUnchanged(ms[3..]);
      assert ms[0..] == ms;
    } else {
      CollapseUnchanged(ms[1..]);
      Cons(ms[0], Collapse(ms[1..]));
      assert ms[0..] == ms;
      forall i | 0 <= i < |ms[1..]| ensures ms[1..][i..] == ms[i + 1..] {
      }
      if forall i :: 0 <= i < |ms[1..]| ==> !CanCollapse(ms[1..][i..]) {
        forall i | 0 <= i < |ms| ensures !CanCollapse(ms[i..]) {
          if i > 0 {
            assert ms[1..][i - 1..] == ms[i..];
          }
        }
      }
    }
  }

  /** A finished turn that is itself the answer of an unfinished one: collapsing it leaves a turn
      that has become complete. */
  predicate Nested(ms: seq<Message>) {
    && |ms| > 2
    && ms[0].role.Assistant? && HasCalls(ms[0])
    && OnlyResults(ms[1])
    && CanCollapse(ms[2..])
  }

  /** The first message of a collapsed list. */
  lemma CollapseHead(ms: seq<Message>)
    ensures ms == [] <==> Collapse(ms) == []
    ensures ms != [] ==> Collapse(ms)[0] == if CanCollapse(ms) then ms[2] else ms[0]
    ensures ms != [] ==> Collapse(ms)[1..] == Collapse(if CanCollapse(ms) then ms[3..] else ms[1..])
  {
  }

  lemma CollapsedAgainIff(ms: seq<Message>)
    ensures CanCollapse(Collapse(ms)) <==> Nested(ms)
  {
    hide Collapse;
    CollapseHead(ms);
    if ms != [] && !CanCollapse(ms) {
      CollapseHead(ms[1..]);
      if |ms| > 1 && !CanCollapse(ms[1..]) {
        SecondCollapse(ms);
      }
    }
  }

  /** The case in which the first two messages stay. */
  lemma SecondCollapse(ms: seq<Message>)
    requires |ms| > 1 && !CanCollapse(ms) && !CanCollapse(ms[1..])
    ensures CanCollapse(Collapse(ms)) <==> Nested(ms)
  {
    hide HasCalls, OnlyResults, Collapse;
    var rest := ms[2..];
    CollapseHead(ms);
    CollapseHead(ms[1..]);
    assert ms[1..][1..] == rest;
    CollapseHead(rest);
    var c := Collapse(ms);
    assert c[1] == ms[1] && c[2..] == Collapse(rest);
    if CanCollapse(rest) {
      CollapseHead(rest[3..]);
    } else if rest != [] {
      CollapseHead(rest[1..]);
    }
  }

  predicate NoneNested(ms: seq<Message>) {
    forall i :: 0 <= i < |ms| ==> !Nested(ms[i..])
  }

  lemma NoneNestedFrom(ms: seq<Message>)
    requires ms != []
    ensures NoneNested(ms) <==> !Nested(ms) && NoneNested(ms[1..])
  {
    hide Nested;
    assert ms[0..] == ms;
    forall i | 0 <= i < |ms[1..]| ensures ms[1..][i..] == ms[i + 1..] {
    }
    if !Nested(ms) && NoneNested(ms[1..]) {
      forall i | 0 <= i < |ms| ensures !Nested(ms[i..]) {
        if i > 0 {
          assert ms[1..][i - 1..] == ms[i..];
        }
      }
    }
  }

  /** A second pass changes nothing exactly when no finished turn answers an unfinished one. */
  lemma {:induction false} CollapseIdempotentIff(ms: seq<Message>)
    ensures Collapse(Collapse(ms)) == Collapse(ms) <==> NoneNested(ms)
    decreases |ms|
  {
    hide CanCollapse, Nested, NoneNested;
    if ms != [] {
      NoneNestedFrom(ms);
      CollapsedAgainIff(ms);
      CollapseHead(ms);
      CollapseHead(Collapse(ms));
      if CanCollapse(ms) {
        NotNestedInside(ms);
        NoneNestedFrom(ms[1..]);
        NoneNestedFrom(ms[2..]);
        assert ms[1..][1..] == ms[2..] && ms[2..][1..] == ms[3..];
        CollapseIdempotentIff(ms[3..]);
      } else {
        CollapseIdempotentIff(ms[1..]);
        if Nested(ms) {
          CollapseShorter(Collapse(ms));
        }
      }
    } else {
      NoneNestedOfNone();
    }
  }

  lemma NoneNestedOfNone()
    ensures NoneNested([])
  {
  }

  /** Where a turn can be collapsed, collapsing changes the list. */
  lemma CollapseShorter(ms: seq<Message>)
    requires CanCollapse(ms)
    ensures Collapse(ms) != ms
  {
    CollapseUnchanged(ms);
    assert ms[0..] == ms;
  }

  lemma NotNestedInside(ms: seq<Message>)
    requires CanCollapse(ms)
    ensures |ms| > 3 && !Nested(ms) && !Nested(ms[1..]) && !Nested(ms[2..])
  {
  }

  /** Such lists exist: the step is not idempotent. */
  lemma CollapseNotIdempotent()
    ensures exists ms :: Collapse(Collapse(ms)) != Collapse(ms)
  {
    var call := Message(Assistant, [MakeToolUse("a", "t", "")], "");
    var answer := Message(User, [MakeToolResult("a", "r")], "");
    var text := Message(Assistant, [MakeText("x")], "");
    var ask := Message(User, [MakeText("y")], "");
    var ms := [call, answer, call, answer, text, ask];
    assert call.content[0] in call.content;
    assert ms[0..] == ms;
    assert ms[1..] == [answer, call, answer, text, ask];
    assert ms[1..][1..] == [call, answer, text, ask];
    assert [call, answer, text, ask][3..] == [ask];
    assert Collapse([ask]) == [ask];
    assert Collapse([call, answer, text, ask]) == [text, ask];
    assert Collapse(ms[1..]) == [answer, text, ask];
    assert Collapse(ms) == [call, answer, text, ask];
  }
}
