/** repair_anthropic_tool_pairing drops every tool call and result without a partner in the adjacent
    message; the specification is a local rule about a message and its two neighbours. */
module ToolPairing {
  import opened Seqs
  import opened Messages

  const OMITTED := MakeText("[tool calls omitted]")

  // ---------------------------------------------------------------------
  // The rule
  // ---------------------------------------------------------------------

  predicate ResultKept(b: Block, open: set<string>) {
    b.kind.ToolResult? ==> b.toolUseId != "" && b.toolUseId in open
  }

  predicate CallKept(b: Block, matched: set<string>) {
    b.kind.ToolUse? ==> b.id in matched
  }

  function KeepResults(blocks: seq<Block>, open: set<string>): seq<Block> {
    if blocks == [] then []
    else (if ResultKept(blocks[0], open) then [blocks[0]] else []) + KeepResults(blocks[1..], open)
  }

  function KeepCalls(blocks: seq<Block>, matched: set<string>): seq<Block> {
    if blocks == [] then []
    else (if CallKept(blocks[0], matched) then [blocks[0]] else []) + KeepCalls(blocks[1..], matched)
  }

  function RepairUser(m: Message, open: set<string>): seq<Message> {
    var kept := KeepResults(m.content, open);
    if kept == [] then [] else [Message(m.role, kept, "")]
  }

  function OrOmitted(kept: seq<Block>): seq<Block> {
    if kept == [] then [OMITTED] else kept
  }

  function RepairAssistant(m: Message, answered: set<string>): Message {
    var ids := ToolUseIds(m.content);
    if ids == {} then m
    else Message(m.role, OrOmitted(KeepCalls(m.content, ids * answered)), "")
  }

  /** What becomes of one message that follows open calls `open` and precedes the results `answered`. */
  function RepairOne(open: set<string>, m: Message, answered: set<string>): seq<Message> {
    if m.role.User? then RepairUser(m, open)
    else if m.role.Assistant? then [RepairAssistant(m, answered)]
    else [m]
  }

  function RepairFrom(open: set<string>, ms: seq<Message>): seq<Message>
    decreases ms
  {
    if ms == [] then []
    else RepairOne(open, ms[0], NextResultIds(ms[1..])) + RepairFrom(PendingIds(ms[0]), ms[1..])
  }

  function Repair(ms: seq<Message>): seq<Message> {
    RepairFrom({}, ms)
  }

  // ---------------------------------------------------------------------
  // The loops
  // ---------------------------------------------------------------------

  method CollectToolUseIds(m: Message) returns (ids: set<string>)
    ensures ids == ToolUseIds(m.content)
  {
    ids := {};
    for i := 0 to |m.content|
      invariant ids == ToolUseIds(m.content[..i])
    {
      var block := m.content[i];
      SplitAt(m.content, i);
      if block.kind.ToolUse? && block.id != "" {
        ids := ids + {block.id};
      }
    }
    Whole(m.content);
  }

  /** The pass over a user message: the blocks kept and the ids of the results among them. */
  method FilterUserBlocks(blocks: seq<Block>, open: set<string>) returns (kept: seq<Block>, matched: set<string>)
    ensures kept == KeepResults(blocks, open)
    ensures "" !in open ==> matched == open * ResultIds(blocks)
  {
    kept, matched := [], {};
    Whole(blocks);
    for i := 0 to |blocks|
      invariant kept + KeepResults(blocks[i..], open) == KeepResults(blocks, open)
      invariant "" !in open ==> matched == open * ResultIds(blocks[..i])
    {
      var block := blocks[i];
      SplitAt(blocks, i);
      Assoc(kept, if ResultKept(block, open) then [block] else [], KeepResults(blocks[i + 1..], open));
      if block.kind.ToolResult? {
        if block.toolUseId != "" && block.toolUseId in open {
          matched := matched + {block.toolUseId};
          kept := kept + [block];
        }
      } else {
        kept := kept + [block];
      }
    }
  }

  method FilterAssistantBlocks(blocks: seq<Block>, matched: set<string>) returns (kept: seq<Block>)
    ensures kept == KeepCalls(blocks, matched)
  {
    kept := [];
    Whole(blocks);
    for i := 0 to |blocks|
      invariant kept + KeepCalls(blocks[i..], matched) == KeepCalls(blocks, matched)
    {
      var block := blocks[i];
      SplitAt(blocks, i);
      Assoc(kept, if CallKept(block, matched) then [block] else [], KeepCalls(blocks[i + 1..], matched));
      if !block.kind.ToolUse? {
        kept := kept + [block];
      } else if block.id in matched {
        kept := kept + [block];
      }
    }
  }

  /** The part of the loop body for an assistant message with open calls: the messages it
      contributes, and whether the user message after it went with it. */
  method RepairCallingTurn(msg: Message, toolUseIds: set<string>, rest: seq<Message>)
      returns (turn: seq<Message>, consumedNextUser: bool)
    requires msg.role.Assistant? && toolUseIds == ToolUseIds(msg.content) && toolUseIds != {}
    ensures consumedNextUser <==> rest != [] && rest[0].role.User?
    ensures turn == [RepairAssistant(msg, NextResultIds(rest))] +
                    (if consumedNextUser then RepairUser(rest[0], toolUseIds) else [])
  {
    var matched: set<string> := {};
    var nextKept: seq<Block> := [];
    consumedNextUser := false;
    if rest != [] && rest[0].role.User? {
      nextKept, matched := FilterUserBlocks(rest[0].content, toolUseIds);
      consumedNextUser := true;
    }
    var kept := FilterAssistantBlocks(msg.content, matched);
    assert matched == toolUseIds * NextResultIds(rest);
    assert msg.content != [];
    if kept == [] && msg.content != [] {
      kept := [OMITTED];
    }
    turn := [Message(msg.role, kept, "")];
    if consumedNextUser && nextKept != [] {
      turn := turn + [Message(rest[0].role, nextKept, "")];
    }
  }

  method RepairAnthropicToolPairing(messages: seq<Message>) returns (repaired: seq<Message>)
    ensures repaired == Repair(messages)
  {
    hide RepairFrom, KeepResults, KeepCalls;
    repaired := [];
    Whole(messages);
    var i := 0;
    while i < |messages|
      invariant 0 <= i <= |messages|
      invariant repaired + RepairFrom({}, messages[i..]) == Repair(messages)
    {
      var msg := messages[i];
      var step: seq<Message>;
      var skip := 0;
      SplitAt(messages, i);
      if !msg.role.Assistant? {
        if msg.role.User? {
          var kept, _ := FilterUserBlocks(msg.content, {});
          step := if kept != [] then [Message(msg.role, kept, "")] else [];
        } else {
          step := [msg];
        }
      } else {
        var toolUseIds := CollectToolUseIds(msg);
        if toolUseIds == {} {
          step := [msg];
        } else {
          var consumedNextUser;
          step, consumedNextUser := RepairCallingTurn(msg, toolUseIds, messages[i + 1..]);
          skip := if consumedNextUser then 1 else 0;
        }
      }
      RepairFromStep(messages, i);
      assert step + RepairFrom({}, messages[i + 1 + skip..]) == RepairFrom({}, messages[i..]);
      Assoc(repaired, step, RepairFrom({}, messages[i + 1 + skip..]));
      repaired := repaired + step;
      i := i + 1 + skip;
    }
    RepairNothing();
  }

  lemma RepairNothing()
    ensures RepairFrom({}, []) == []
  {
  }

  /** One turn of the loop: a calling assistant message and the user message after it go together. */
  lemma RepairFromStep(ms: seq<Message>, i: nat)
    requires i < |ms|
    ensures var m, rest := ms[i], ms[i + 1..];
            RepairFrom({}, ms[i..]) ==
            if m.role.Assistant? && ToolUseIds(m.content) != {} && rest != [] && rest[0].role.User?
            then ([RepairAssistant(m, NextResultIds(rest))] + RepairUser(rest[0], ToolUseIds(m.content)))
                 + RepairFrom({}, ms[i + 2..])
            else RepairOne({}, m, NextResultIds(rest)) + RepairFrom({}, rest)
  {
    SplitAt(ms, i);
    var m, rest := ms[i], ms[i + 1..];
    if rest == [] || !rest[0].role.User? {
      RepairOpenIrrelevant(PendingIds(m), {}, rest);
    } else {
      SplitAt(ms, i + 1);
      Assoc([RepairAssistant(m, NextResultIds(rest))], RepairUser(rest[0], PendingIds(m)), RepairFrom({}, ms[i + 2..]));
    }
  }

  lemma RepairOpenIrrelevant(a: set<string>, b: set<string>, ms: seq<Message>)
    requires ms == [] || !ms[0].role.User?
    ensures RepairFrom(a, ms) == RepairFrom(b, ms)
  {
  }

  // ---------------------------------------------------------------------
  // What the filters keep
  // ---------------------------------------------------------------------

  lemma {:induction false} KeepResultsMembers(blocks: seq<Block>, open: set<string>)
    ensures forall b :: b in KeepResults(blocks, open) <==> b in blocks && ResultKept(b, open)
  {
    if blocks != [] {
      KeepResultsMembers(blocks[1..], open);
      assert blocks == [blocks[0]] + blocks[1..];
    }
  }

  lemma {:induction false} KeepCallsMembers(blocks: seq<Block>, matched: set<string>)
    ensures forall b :: b in KeepCalls(blocks, matched) <==> b in blocks && CallKept(b, matched)
  {
    if blocks != [] {
      KeepCallsMembers(blocks[1..], matched);
      assert blocks == [blocks[0]] + blocks[1..];
    }
  }

  lemma KeptResultIds(blocks: seq<Block>, open: set<string>)
    requires "" !in open
    ensures ResultIds(KeepResults(blocks, open)) == open * ResultIds(blocks)
  {
    KeepResultsMembers(blocks, open);
    forall id | id in open * ResultIds(blocks) ensures id in ResultIds(KeepResults(blocks, open)) {
      var b :| b in blocks && b.kind.ToolResult? && b.toolUseId == id;
      assert b in KeepResults(blocks, open);
    }
  }

  lemma KeptCallIds(blocks: seq<Block>, answered: set<string>)
    ensures ToolUseIds(OrOmitted(KeepCalls(blocks, ToolUseIds(blocks) * answered))) == ToolUseIds(blocks) * answered
  {
    var matched := ToolUseIds(blocks) * answered;
    KeepCallsMembers(blocks, matched);
    forall id | id in matched ensures id in ToolUseIds(KeepCalls(blocks, matched)) {
      var b :| b in blocks && b.kind.ToolUse? && b.id == id && b.id != "";
      assert b in KeepCalls(blocks, matched);
    }
    assert ToolUseIds([OMITTED]) == {};
  }

  lemma {:induction false} KeepResultsAll(blocks: seq<Block>, open: set<string>)
    requires forall b :: b in blocks ==> ResultKept(b, open)
    ensures KeepResults(blocks, open) == blocks
  {
    if blocks != [] {
      KeepResultsAll(blocks[1..], open);
    }
  }

  lemma {:induction false} KeepCallsAll(blocks: seq<Block>, matched: set<string>)
    requires forall b :: b in blocks ==> CallKept(b, matched)
    ensures KeepCalls(blocks, matched) == blocks
  {
    if blocks != [] {
      KeepCallsAll(blocks[1..], matched);
    }
  }

  // ---------------------------------------------------------------------
  // The result is paired in both directions
  // ---------------------------------------------------------------------

  /** A user message right after open calls survives exactly with the answers it gives them. */
  lemma RepairedNextResults(open: set<string>, ms: seq<Message>)
    requires "" !in open
    ensures open * NextResultIds(ms) <= NextResultIds(RepairFrom(open, ms))
  {
    if ms != [] && ms[0].role.User? && open * NextResultIds(ms) != {} {
      KeptResultIds(ms[0].content, open);
      assert KeepResults(ms[0].content, open) != [];
    }
  }

  lemma {:induction false} RepairFromPaired(open: set<string>, ms: seq<Message>)
    requires "" !in open
    ensures PairedFrom(open * NextResultIds(ms), RepairFrom(open, ms))
    decreases ms
  {
    if ms != [] {
      var m, rest := ms[0], ms[1..];
      var tail := RepairFrom(PendingIds(m), rest);
      RepairFromPaired(PendingIds(m), rest);
      if m.role.User? {
        KeptResultIds(m.content, open);
        KeepResultsMembers(m.content, open);
        if KeepResults(m.content, open) != [] {
          Cons(RepairUser(m, open)[0], tail);
        } else {
          assert RepairFrom(open, ms) == tail;
        }
      } else if m.role.Assistant? {
        RepairedNextResults(PendingIds(m), rest);
        KeptCallIds(m.content, NextResultIds(rest));
        Cons(RepairAssistant(m, NextResultIds(rest)), tail);
      } else {
        Cons(m, tail);
      }
    }
  }

  lemma RepairPaired(ms: seq<Message>)
    ensures Paired(Repair(ms))
  {
    RepairFromPaired({}, ms);
    assert {} * NextResultIds(ms) == {};
    PairedIff(Repair(ms));
  }

  // ---------------------------------------------------------------------
  // The lists that repair leaves alone are exactly the paired, tidy ones
  // ---------------------------------------------------------------------

  /** No empty user message; no call with an empty id beside calls with ids; and no timestamp
      on the messages that repair would rebuild. */
  predicate TidyMessage(m: Message) {
    && (m.role.User? ==> m.content != [] && m.timestamp == "")
    && (m.role.Assistant? && ToolUseIds(m.content) != {} ==>
          m.timestamp == "" && forall b :: b in m.content && b.kind.ToolUse? ==> b.id != "")
  }

  predicate Tidy(ms: seq<Message>) {
    forall m :: m in ms ==> TidyMessage(m)
  }

  lemma RepairOneTidy(open: set<string>, m: Message, answered: set<string>)
    ensures Tidy(RepairOne(open, m, answered))
  {
    var ids := ToolUseIds(m.content);
    if m.role.Assistant? && ids != {} {
      KeepCallsMembers(m.content, ids * answered);
    }
  }

  lemma {:induction false} RepairFromTidy(open: set<string>, ms: seq<Message>)
    ensures Tidy(RepairFrom(open, ms))
    decreases ms
  {
    if ms != [] {
      RepairOneTidy(open, ms[0], NextResultIds(ms[1..]));
      RepairFromTidy(PendingIds(ms[0]), ms[1..]);
    }
  }

  lemma RepairOneUntouched(open: set<string>, m: Message, answered: set<string>)
    requires TidyMessage(m) && "" !in open
    requires ResultsWithin(m, open) && PendingIds(m) <= answered
    ensures RepairOne(open, m, answered) == [m]
  {
    if m.role.User? {
      KeepResultsAll(m.content, open);
    } else if m.role.Assistant? && ToolUseIds(m.content) != {} {
      forall b | b in m.content ensures CallKept(b, ToolUseIds(m.content) * answered) {
        assert b.kind.ToolUse? ==> b.id in ToolUseIds(m.content);
      }
      KeepCallsAll(m.content, ToolUseIds(m.content) * answered);
    }
  }

  lemma {:induction false} RepairFromUntouched(open: set<string>, ms: seq<Message>)
    requires "" !in open && PairedFrom(open, ms) && Tidy(ms)
    ensures RepairFrom(open, ms) == ms
    decreases ms
  {
    if ms != [] {
      RepairOneUntouched(open, ms[0], NextResultIds(ms[1..]));
      RepairFromUntouched(PendingIds(ms[0]), ms[1..]);
    }
  }

  lemma RepairFixpoints(ms: seq<Message>)
    ensures Repair(ms) == ms <==> Paired(ms) && Tidy(ms)
  {
    RepairPaired(ms);
    RepairFromTidy({}, ms);
    PairedIff(ms);
    if Paired(ms) && Tidy(ms) {
      RepairFromUntouched({}, ms);
    }
  }

  lemma RepairIdempotent(ms: seq<Message>)
    ensures Repair(Repair(ms)) == Repair(ms)
  {
    RepairPaired(ms);
    RepairFromTidy({}, ms);
    RepairFixpoints(Repair(ms));
  }

  // ---------------------------------------------------------------------
  // Nothing else is removed
  // ---------------------------------------------------------------------

  /** A block that repair may remove from a message with the given role. */
  predicate Removable(role: Role, b: Block) {
    (role.Assistant? && b.kind.ToolUse?) || (role.User? && b.kind.ToolResult?)
  }

  function SolidBlocks(role: Role, blocks: seq<Block>): seq<(Role, Block)> {
    if blocks == [] then []
    else (if Removable(role, blocks[0]) then [] else [(role, blocks[0])]) + SolidBlocks(role, blocks[1..])
  }

  /** The (role, block) sequence without assistant tool calls and user tool results. */
  function Solid(ms: seq<Message>): seq<(Role, Block)> {
    if ms == [] then [] else SolidBlocks(ms[0].role, ms[0].content) + Solid(ms[1..])
  }

  /** `longer` is `shorter` with some placeholder texts of the assistant inserted. */
  ghost predicate OmittedInserted(shorter: seq<(Role, Block)>, longer: seq<(Role, Block)>)
    decreases longer
  {
    if longer == [] then shorter == []
    else
      || (shorter != [] && shorter[0] == longer[0] && OmittedInserted(shorter[1..], longer[1..]))
      || (longer[0] == (Assistant, OMITTED) && OmittedInserted(shorter, longer[1..]))
  }

  lemma {:induction false} OmittedInsertedAfter(p: seq<(Role, Block)>, a: seq<(Role, Block)>, b: seq<(Role, Block)>)
    requires OmittedInserted(a, b)
    ensures OmittedInserted(p + a, p + b)
  {
    if p == [] {
      assert p + a == a && p + b == b;
    } else {
      OmittedInsertedAfter(p[1..], a, b);
      Uncons(p, a);
      Uncons(p, b);
    }
  }

  lemma {:induction false} SolidOfUser(blocks: seq<Block>, open: set<string>)
    ensures SolidBlocks(User, KeepResults(blocks, open)) == SolidBlocks(User, blocks)
    ensures Words(KeepResults(blocks, open)) == Words(blocks)
  {
    if blocks != [] {
      SolidOfUser(blocks[1..], open);
      if ResultKept(blocks[0], open) {
        Cons(blocks[0], KeepResults(blocks[1..], open));
      } else {
        assert KeepResults(blocks, open) == KeepResults(blocks[1..], open);
      }
    }
  }

  lemma {:induction false} SolidOfAssistant(blocks: seq<Block>, matched: set<string>)
    ensures SolidBlocks(Assistant, KeepCalls(blocks, matched)) == SolidBlocks(Assistant, blocks)
  {
    if blocks != [] {
      SolidOfAssistant(blocks[1..], matched);
      if CallKept(blocks[0], matched) {
        Cons(blocks[0], KeepCalls(blocks[1..], matched));
      } else {
        assert KeepCalls(blocks, matched) == KeepCalls(blocks[1..], matched);
      }
    }
  }

  lemma {:induction false} RepairFromSolid(open: set<string>, ms: seq<Message>)
    ensures OmittedInserted(Solid(ms), Solid(RepairFrom(open, ms)))
    decreases ms
  {
    if ms != [] {
      var m, rest := ms[0], ms[1..];
      var tail := RepairFrom(PendingIds(m), rest);
      RepairFromSolid(PendingIds(m), rest);
      OmittedInsertedAfter(SolidBlocks(m.role, m.content), Solid(rest), Solid(tail));
      if m.role.User? {
        SolidOfUser(m.content, open);
        if KeepResults(m.content, open) != [] {
          Cons(RepairUser(m, open)[0], tail);
        } else {
          assert RepairFrom(open, ms) == tail;
          assert Solid(ms) == Solid(rest);
        }
      } else if m.role.Assistant? {
        Cons(RepairAssistant(m, NextResultIds(rest)), tail);
        RepairAssistantSolid(m, NextResultIds(rest), Solid(rest), Solid(tail));
      } else {
        Cons(m, tail);
      }
    }
  }

  lemma {:induction false} RepairFromUserWords(open: set<string>, ms: seq<Message>)
    ensures UserWords(RepairFrom(open, ms)) == UserWords(ms)
    decreases ms
  {
    if ms != [] {
      var m, rest := ms[0], ms[1..];
      var one := RepairOne(open, m, NextResultIds(rest));
      RepairFromUserWords(PendingIds(m), rest);
      UserWordsConcat(one, RepairFrom(PendingIds(m), rest));
      assert UserWords(one) == WordsOfMessage(m) by {
        SolidOfUser(m.content, open);
      }
    }
  }

  lemma RepairAssistantSolid(m: Message, answered: set<string>, before: seq<(Role, Block)>, after: seq<(Role, Block)>)
    requires m.role.Assistant? && OmittedInserted(before, after)
    requires OmittedInserted(SolidBlocks(m.role, m.content) + before, SolidBlocks(m.role, m.content) + after)
    ensures OmittedInserted(SolidBlocks(m.role, m.content) + before,
                            SolidBlocks(m.role, RepairAssistant(m, answered).content) + after)
  {
    var ids := ToolUseIds(m.content);
    if ids != {} {
      SolidOfAssistant(m.content, ids * answered);
      if KeepCalls(m.content, ids * answered) == [] {
        assert SolidBlocks(m.role, m.content) + before == before;
        assert SolidBlocks(m.role, [OMITTED]) == [(Assistant, OMITTED)];
        Cons((Assistant, OMITTED), after);
      }
    }
  }

  /** Apart from assistant tool calls and user tool results nothing is removed or reordered, and
      nothing but the placeholder text is added. */
  lemma RepairRemovesNothingElse(ms: seq<Message>)
    ensures OmittedInserted(Solid(ms), Solid(Repair(ms)))
    ensures UserWords(Repair(ms)) == UserWords(ms)
  {
    RepairFromSolid({}, ms);
    RepairFromUserWords({}, ms);
  }
}
