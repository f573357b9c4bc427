/** What the single steps of the message pipeline leave, told block by block and message by message. */
module StepLaws {
  import opened Seqs
  import opened Messages
  import opened ToolPairing
  import opened TurnMerging
  import opened TurnCollapse
  import opened TurnValidator

  // ---------------------------------------------------------------------
  // Repair: which calls and results stay
  // ---------------------------------------------------------------------

  /** Message i calls some tool under an id. */
  predicate CallsById(m: Message) {
    exists b :: b in m.content && b.kind.ToolUse? && b.id != ""
  }

  /** Block b of message i outlives the repair: a result if it answers a call of the assistant message
      before, a call if the user message after answers it or its message calls nothing by id. */
  ghost predicate Stays(ms: seq<Message>, i: nat, b: Block)
    requires i < |ms|
  {
    match ms[i].role
    case User =>
      b.kind.ToolResult? ==>
        i > 0 && ms[i - 1].role.Assistant? && b.toolUseId != "" && CallIn(ms[i - 1].content, b.toolUseId)
    case Assistant =>
      b.kind.ToolUse? && CallsById(ms[i]) ==>
        b.id != "" && b in ms[i].content &&
        i + 1 < |ms| && ms[i + 1].role.User? && AnswerIn(ms[i + 1].content, b.id)
    case _ => true
  }

  ghost function StayingOf(ms: seq<Message>, i: nat, blocks: seq<Block>): seq<(Role, Block)>
    requires i < |ms|
  {
    if blocks == [] then []
    else (if Stays(ms, i, blocks[0]) then [(ms[i].role, blocks[0])] else []) + StayingOf(ms, i, blocks[1..])
  }

  /** The blocks that stay, from message i on, in order. */
  ghost function StayingFrom(ms: seq<Message>, i: nat): seq<(Role, Block)>
    requires i <= |ms|
    decreases |ms| - i
  {
    if i == |ms| then [] else StayingOf(ms, i, ms[i].content) + StayingFrom(ms, i + 1)
  }

  /** The calls that message i leaves open for the next one. */
  function OpenAt(ms: seq<Message>, i: nat): set<string>
    requires i <= |ms|
  {
    if i == 0 then {} else PendingIds(ms[i - 1])
  }

  lemma ResultStaysIff(ms: seq<Message>, i: nat, b: Block)
    requires i < |ms| && ms[i].role.User?
    ensures ResultKept(b, OpenAt(ms, i)) <==> Stays(ms, i, b)
  {
    if i > 0 && CallIn(ms[i - 1].content, b.toolUseId) {
      var c :| c in ms[i - 1].content && c.kind.ToolUse? && c.id == b.toolUseId;
    }
  }

  lemma CallStaysIff(ms: seq<Message>, i: nat, b: Block)
    requires i < |ms| && ms[i].role.Assistant? && b in ms[i].content && CallsById(ms[i])
    ensures CallKept(b, ToolUseIds(ms[i].content) * NextResultIds(ms[i + 1..])) <==> Stays(ms, i, b)
  {
    if i + 1 < |ms| {
      assert ms[i + 1..][0] == ms[i + 1];
      if b.kind.ToolUse? && AnswerIn(ms[i + 1].content, b.id) {
        var r :| r in ms[i + 1].content && r.kind.ToolResult? && r.toolUseId == b.id;
      }
    }
  }

  lemma CallsByIdIff(m: Message)
    ensures CallsById(m) <==> ToolUseIds(m.content) != {}
  {
    if CallsById(m) {
      var b :| b in m.content && b.kind.ToolUse? && b.id != "";
      assert b.id in ToolUseIds(m.content);
    } else {
      assert forall id :: id !in ToolUseIds(m.content);
      NoMembers(ToolUseIds(m.content));
    }
  }

  lemma {:induction false} KeptResultsStay(ms: seq<Message>, i: nat, blocks: seq<Block>)
    requires i < |ms| && ms[i].role.User?
    ensures Tagged(User, KeepResults(blocks, OpenAt(ms, i))) == StayingOf(ms, i, blocks)
  {
    hide OpenAt, Stays, ResultKept;
    if blocks != [] {
      KeptResultsStay(ms, i, blocks[1..]);
      ResultStaysIff(ms, i, blocks[0]);
      TaggedConcat(User, if ResultKept(blocks[0], OpenAt(ms, i)) then [blocks[0]] else [],
                   KeepResults(blocks[1..], OpenAt(ms, i)));
    }
  }

  lemma {:induction false} KeptCallsStay(ms: seq<Message>, i: nat, blocks: seq<Block>)
    requires i < |ms| && ms[i].role.Assistant? && CallsById(ms[i]) && forall b :: b in blocks ==> b in ms[i].content
    ensures Tagged(Assistant, KeepCalls(blocks, ToolUseIds(ms[i].content) * NextResultIds(ms[i + 1..]))) ==
            StayingOf(ms, i, blocks)
  {
    hide Stays, CallKept, CallsById, ToolUseIds, NextResultIds;
    var matched := ToolUseIds(ms[i].content) * NextResultIds(ms[i + 1..]);
    if blocks != [] {
      assert forall b :: b in blocks[1..] ==> b in blocks;
      KeptCallsStay(ms, i, blocks[1..]);
      CallStaysIff(ms, i, blocks[0]);
      TaggedConcat(Assistant, if CallKept(blocks[0], matched) then [blocks[0]] else [],
                   KeepCalls(blocks[1..], matched));
    }
  }

  lemma {:induction false} AllStay(ms: seq<Message>, i: nat, blocks: seq<Block>)
    requires i < |ms| && !ms[i].role.User? && !(ms[i].role.Assistant? && CallsById(ms[i]))
    ensures Tagged(ms[i].role, blocks) == StayingOf(ms, i, blocks)
  {
    if blocks != [] {
      AllStay(ms, i, blocks[1..]);
      assert Stays(ms, i, blocks[0]);
      TaggedConcat(ms[i].role, [blocks[0]], blocks[1..]);
      assert [blocks[0]] + blocks[1..] == blocks;
    }
  }

  /** One message, with what follows it. */
  lemma RepairOneStays(ms: seq<Message>, i: nat, shorter: seq<(Role, Block)>, rest: seq<Message>)
    requires i < |ms| && OmittedInserted(shorter, Flatten(rest))
    ensures OmittedInserted(StayingOf(ms, i, ms[i].content) + shorter,
                            Flatten(RepairOne(OpenAt(ms, i), ms[i], NextResultIds(ms[i + 1..])) + rest))
  {
    hide OpenAt, OmittedInserted, KeepResults, KeepCalls, StayingOf, ToolUseIds, NextResultIds, CallsById;
    var m := ms[i];
    var staying := StayingOf(ms, i, m.content);
    var one := RepairOne(OpenAt(ms, i), m, NextResultIds(ms[i + 1..]));
    OmittedInsertedAfter(staying, shorter, Flatten(rest));
    CallsByIdIff(m);
    if m.role.User? {
      KeptResultsStay(ms, i, m.content);
      if one == [] {
        assert staying == [] && one + rest == rest;
        assert staying + shorter == shorter;
      } else {
        Cons(one[0], rest);
        assert one + rest == [one[0]] + rest;
      }
    } else if m.role.Assistant? && ToolUseIds(m.content) != {} {
      KeptCallsStay(ms, i, m.content);
      Cons(one[0], rest);
      assert one + rest == [one[0]] + rest;
      if staying == [] {
        PlaceholderInserted(shorter, Flatten(rest));
        assert staying + shorter == shorter;
        assert Tagged(Assistant, [OMITTED]) == [(Assistant, OMITTED)];
      }
    } else {
      AllStay(ms, i, m.content);
      Cons(m, rest);
    }
  }

  lemma PlaceholderInserted(shorter: seq<(Role, Block)>, longer: seq<(Role, Block)>)
    requires OmittedInserted(shorter, longer)
    ensures OmittedInserted(shorter, [(Assistant, OMITTED)] + longer)
  {
    Cons((Assistant, OMITTED), longer);
  }

  lemma {:induction false} RepairFromExactly(ms: seq<Message>, i: nat)
    requires i <= |ms|
    ensures OmittedInserted(StayingFrom(ms, i), Flatten(RepairFrom(OpenAt(ms, i), ms[i..])))
    decreases |ms| - i
  {
    hide StayingOf, RepairOne, NextResultIds, PendingIds;
    if i < |ms| {
      RepairFromExactly(ms, i + 1);
      SplitAt(ms, i);
      RepairOneStays(ms, i, StayingFrom(ms, i + 1), RepairFrom(PendingIds(ms[i]), ms[i + 1..]));
    }
  }

  /** The repaired conversation has, in order and in their roles, exactly the blocks that stay, and
      besides them nothing but placeholder texts of the assistant. */
  lemma RepairExactly(ms: seq<Message>)
    ensures OmittedInserted(StayingFrom(ms, 0), Flatten(Repair(ms)))
  {
    RepairFromExactly(ms, 0);
    Whole(ms);
  }

  // ---------------------------------------------------------------------
  // Collapse: nothing but finished calls and their results goes
  // ---------------------------------------------------------------------

  /** Neither calls of the assistant nor results alone. */
  predicate IsPlain(m: Message) {
    !(m.role.Assistant? && HasCalls(m)) && !OnlyResults(m)
  }

  function Plain(ms: seq<Message>): seq<Message> {
    if ms == [] then [] else (if IsPlain(ms[0]) then [ms[0]] else []) + Plain(ms[1..])
  }

  lemma PlainCons(ms: seq<Message>)
    requires ms != []
    ensures Plain(ms) == (if IsPlain(ms[0]) then [ms[0]] else []) + Plain(ms[1..])
    ensures !IsPlain(ms[0]) ==> Plain(ms) == Plain(ms[1..])
  {
    hide IsPlain;
  }

  /** Every other message stays, as it was and in order. */
  lemma {:induction false} CollapseKeepsPlain(ms: seq<Message>)
    ensures Plain(Collapse(ms)) == Plain(ms)
    decreases |ms|
  {
    hide Plain, IsPlain, CanCollapse;
    if ms != [] {
      PlainCons(ms);
      if CanCollapse(ms) {
        FinishedIsNotPlain(ms);
        CollapseKeepsPlain(ms[3..]);
        PlainCons(ms[1..]);
        PlainCons(ms[2..]);
        assert ms[1..][0] == ms[1] && ms[1..][1..] == ms[2..];
        assert ms[2..][0] == ms[2] && ms[2..][1..] == ms[3..];
        Cons(ms[2], Collapse(ms[3..]));
        PlainCons([ms[2]] + Collapse(ms[3..]));
      } else {
        CollapseKeepsPlain(ms[1..]);
        Cons(ms[0], Collapse(ms[1..]));
        PlainCons([ms[0]] + Collapse(ms[1..]));
      }
    }
  }

  lemma FinishedIsNotPlain(ms: seq<Message>)
    requires CanCollapse(ms)
    ensures |ms| > 3 && !IsPlain(ms[0]) && !IsPlain(ms[1])
  {
  }

  // ---------------------------------------------------------------------
  // Merging: each merged message is a run of neighbours
  // ---------------------------------------------------------------------

  function Contents(ms: seq<Message>): seq<Block> {
    if ms == [] then [] else ms[0].content + Contents(ms[1..])
  }

  /** The timestamp of a run: its first, or its last one that is not empty. */
  predicate IsStampOf(rule: StampRule, run: seq<Message>, stamp: string)
    requires run != []
  {
    match rule
    case FirstStamp => stamp == run[0].timestamp
    case LatestStamp =>
      || (stamp == "" && forall m :: m in run ==> m.timestamp == "")
      || (stamp != "" && exists i :: 0 <= i < |run| && IsLastStamp(run, i, stamp))
  }

  predicate IsLastStamp(run: seq<Message>, i: nat, stamp: string)
    requires i < |run|
  {
    run[i].timestamp == stamp && forall k :: i < k < |run| ==> run[k].timestamp == ""
  }

  predicate IsRunOf(role: Role, rule: StampRule, run: seq<Message>, merged: Message) {
    && run != [] && (|run| > 1 ==> forall m :: m in run ==> m.role == role)
    && merged.role == run[0].role && merged.content == Contents(run) && IsStampOf(rule, run, merged.timestamp)
  }

  /** ms falls into runs, one after the other, that the merged messages are made of. */
  ghost predicate IsMerged(role: Role, rule: StampRule, ms: seq<Message>, merged: seq<Message>)
    decreases |merged|
  {
    if merged == [] then ms == []
    else exists n :: 0 < n <= |ms| && IsRunOf(role, rule, ms[..n], merged[0]) &&
                     IsMerged(role, rule, ms[n..], merged[1..])
  }

  lemma LoneRun(role: Role, rule: StampRule, m: Message)
    ensures IsRunOf(role, rule, [m], m)
  {
    assert Contents([m]) == m.content + [];
    assert IsLastStamp([m], 0, m.timestamp);
  }

  lemma LongerRun(role: Role, rule: StampRule, a: Message, b: Message, rest: seq<Message>, merged: Message)
    requires a.role == role && b.role == role && IsRunOf(role, rule, [Join(a, b, rule)] + rest, merged)
    ensures IsRunOf(role, rule, [a, b] + rest, merged)
  {
    var shorter, run := [Join(a, b, rule)] + rest, [a, b] + rest;
    assert run[1..] == [b] + rest && run[1..][1..] == rest && shorter[1..] == rest;
    assert Contents(run) == a.content + (b.content + Contents(rest));
    Assoc(a.content, b.content, Contents(rest));
    forall m | m in run ensures m.role == role {
      assert |shorter| > 1 ==> forall x :: x in rest ==> x in shorter;
    }
    if rule.LatestStamp? {
      LongerStamp(a, b, rest, merged.timestamp);
    }
  }

  lemma LongerStamp(a: Message, b: Message, rest: seq<Message>, stamp: string)
    requires IsStampOf(LatestStamp, [Join(a, b, LatestStamp)] + rest, stamp)
    ensures IsStampOf(LatestStamp, [a, b] + rest, stamp)
  {
    var shorter, run := [Join(a, b, LatestStamp)] + rest, [a, b] + rest;
    assert forall k :: 0 < k < |shorter| ==> shorter[k] == run[k + 1];
    if stamp == "" {
      assert shorter[0] in shorter;
      forall m | m in run ensures m.timestamp == "" {
        assert m in rest ==> m in shorter;
      }
    } else {
      var i :| 0 <= i < |shorter| && IsLastStamp(shorter, i, stamp);
      forall k | i + 1 < k < |run| ensures run[k].timestamp == "" {
        assert run[k] == shorter[k - 1];
      }
      assert i > 0 ==> run[i + 1] == shorter[i];
      assert run[0] == a && run[1] == b;
      if i == 0 && b.timestamp == "" {
        forall k | 0 < k < |run| ensures run[k].timestamp == "" {
          assert k > 1 ==> run[k] == shorter[k - 1];
        }
        assert IsLastStamp(run, 0, stamp);
      } else {
        assert IsLastStamp(run, i + 1, stamp);
      }
    }
  }

  /** Merging gives runs of neighbours, of more than one message only in the role merged, with their
      blocks in order and the run's timestamp. */
  lemma {:induction false} MergeIsMerged(role: Role, rule: StampRule, ms: seq<Message>)
    ensures IsMerged(role, rule, ms, Merge(role, rule, ms))
    decreases |ms|
  {
    hide IsRunOf, Join;
    var merged := Merge(role, rule, ms);
    if |ms| >= 2 && ms[0].role == role && ms[1].role == role {
      var joined := [Join(ms[0], ms[1], rule)] + ms[2..];
      MergeIsMerged(role, rule, joined);
      var n :| 0 < n <= |joined| && IsRunOf(role, rule, joined[..n], merged[0]) &&
        IsMerged(role, rule, joined[n..], merged[1..]);
      assert joined[..n] == [joined[0]] + ms[2..n + 1] && joined[n..] == ms[n + 1..];
      LongerRun(role, rule, ms[0], ms[1], ms[2..n + 1], merged[0]);
      assert ms[..n + 1] == [ms[0], ms[1]] + ms[2..n + 1];
    } else if ms != [] {
      LoneRun(role, rule, ms[0]);
      assert ms[..1] == [ms[0]];
      assert merged == [ms[0]] + Merge(role, rule, ms[1..]);
      Cons(ms[0], Merge(role, rule, ms[1..]));
      MergeIsMerged(role, rule, ms[1..]);
    }
  }

  // ---------------------------------------------------------------------
  // Stripping: which calls stay
  // ---------------------------------------------------------------------

  /** Message i is an assistant message with calls, and a user message follows. */
  predicate CallsBeforeUser(ms: seq<Message>, i: nat)
    requires i < |ms|
  {
    ms[i].role.Assistant? && HasCalls(ms[i]) && i + 1 < |ms| && ms[i + 1].role.User?
  }

  ghost predicate OutlivesStrip(ms: seq<Message>, i: nat, b: Block)
    requires i + 1 < |ms|
  {
    b in ms[i].content && (b.kind.ToolUse? ==> b.id != "" && AnswerIn(ms[i + 1].content, b.id))
  }

  lemma StripAt(ms: seq<Message>, i: nat)
    requires i < |ms|
    ensures |Strip(ms)| == |ms| && Strip(ms)[i] == StripOne(ms[i], ms[i + 1..])
  {
    if i > 0 {
      StripAt(ms[1..], i - 1);
      assert ms[1..][i - 1 + 1..] == ms[i + 1..];
    } else {
      StripLength(ms);
    }
  }

  lemma StripLength(ms: seq<Message>)
    ensures |Strip(ms)| == |ms|
  {
  }

  /** A message that calls tools before a user message keeps exactly the calls which that message
      answers and all its other blocks, or a placeholder if that is nothing; every other message is
      untouched. */
  lemma StripExactly(ms: seq<Message>, i: nat)
    requires i < |ms|
    ensures |Strip(ms)| == |ms|
    ensures !CallsBeforeUser(ms, i) ==> Strip(ms)[i] == ms[i]
    ensures CallsBeforeUser(ms, i) ==>
              && Strip(ms)[i].role.Assistant?
              && ((exists b :: OutlivesStrip(ms, i, b)) ==>
                    forall b :: b in Strip(ms)[i].content <==> OutlivesStrip(ms, i, b))
              && (!(exists b :: OutlivesStrip(ms, i, b)) ==> Strip(ms)[i].content == [OMITTED])
  {
    hide HasCalls, Strip;
    StripAt(ms, i);
    if CallsBeforeUser(ms, i) {
      var rest := ms[i + 1..];
      assert rest[0] == ms[i + 1];
      var kept := KeepCalls(ms[i].content, NextResultIds(rest));
      KeepCallsMembers(ms[i].content, NextResultIds(rest));
      forall b ensures b in kept <==> OutlivesStrip(ms, i, b) {
        AnsweredNext(ms, i, b);
      }
      if kept != [] {
        assert OutlivesStrip(ms, i, kept[0]) by { assert kept[0] in kept; }
      }
    }
  }

  lemma AnsweredNext(ms: seq<Message>, i: nat, b: Block)
    requires i + 1 < |ms| && ms[i + 1].role.User?
    ensures b.id in NextResultIds(ms[i + 1..]) <==> b.id != "" && AnswerIn(ms[i + 1].content, b.id)
  {
    assert ms[i + 1..][0] == ms[i + 1];
    if b.id != "" && AnswerIn(ms[i + 1].content, b.id) {
      var r :| r in ms[i + 1].content && r.kind.ToolResult? && r.toolUseId == b.id;
    }
  }
}
