/** Which tool calls a conversation replays at its end, and what the request then tells the model. */
module ReplayHints {
  import opened Seqs
  import opened Messages
  import opened ToolPairing
  import opened TurnMerging
  import opened TurnCollapse
  import opened ReplayTrim
  import opened TurnValidator
  import opened RequestSanitizer

  // ---------------------------------------------------------------------
  // The names replayed
  // ---------------------------------------------------------------------

  /** An assistant message with a call of that name, which a result in `answers` answers. */
  ghost predicate Replays(m: Message, answers: seq<Block>, name: string) {
    m.role.Assistant? && exists b :: b in m.content && IsReplayed(b, answers, name)
  }

  ghost predicate IsReplayed(b: Block, answers: seq<Block>, name: string) {
    b.kind.ToolUse? && b.id != "" && b.name == name && AnswerIn(answers, b.id)
  }

  /** m is the nearest of the messages, from the last one back, that replays any named call, and it
      replays one of this name. */
  ghost predicate NearestReplays(ms: seq<Message>, answers: seq<Block>, name: string) {
    exists j :: 0 <= j < |ms| && Replays(ms[j], answers, name) && NoneReplayedAfter(ms, answers, j)
  }

  ghost predicate NoneReplayedAfter(ms: seq<Message>, answers: seq<Block>, j: int) {
    forall k, other :: 0 <= j < k < |ms| && other != "" ==> !Replays(ms[k], answers, other)
  }

  lemma AnsweredIff(answers: seq<Block>, id: string)
    requires id != ""
    ensures id in ResultIds(answers) <==> AnswerIn(answers, id)
  {
  }

  lemma ReplaysIff(m: Message, answers: seq<Block>, name: string)
    requires name != "" && m.role.Assistant?
    ensures name in AnsweredNames(m.content, ResultIds(answers)) <==> Replays(m, answers, name)
  {
    hide ResultIds, AnswerIn;
    forall b | b in m.content && b.id != "" ensures b.id in ResultIds(answers) <==> AnswerIn(answers, b.id) {
      AnsweredIff(answers, b.id);
    }
    if name in AnsweredNames(m.content, ResultIds(answers)) {
      var b :| b in m.content && b.kind.ToolUse? && b.id != "" && b.id in ResultIds(answers) && b.name == name;
      assert IsReplayed(b, answers, name);
    }
  }

  lemma NoneReplayed(m: Message, answers: seq<Block>)
    requires m.role.Assistant?
    ensures AnsweredNames(m.content, ResultIds(answers)) == {} <==>
            forall other :: other != "" ==> !Replays(m, answers, other)
    ensures "" !in AnsweredNames(m.content, ResultIds(answers))
  {
    var names := AnsweredNames(m.content, ResultIds(answers));
    hide Replays;
    forall other | other != "" ensures other in names <==> Replays(m, answers, other) {
      ReplaysIff(m, answers, other);
    }
    if forall other :: other != "" ==> !Replays(m, answers, other) {
      assert forall other :: other !in names;
      NoMembers(names);
    }
  }

  lemma {:induction false} NamesBackwardIff(ms: seq<Message>, answers: seq<Block>, name: string)
    ensures name in NamesBackward(ms, ResultIds(answers)) <==> name != "" && NearestReplays(ms, answers, name)
  {
    hide Replays, AnsweredNames;
    if ms != [] {
      var n := |ms| - 1;
      NamesBackwardIff(ms[..n], answers, name);
      if ms[n].role.Assistant? {
        NoneReplayed(ms[n], answers);
        if name != "" {
          ReplaysIff(ms[n], answers, name);
        }
      } else {
        assert forall other :: !Replays(ms[n], answers, other) by { OnlyAssistantsReplay(ms[n], answers); }
      }
      NearestSnoc(ms, answers, name);
    }
  }

  lemma OnlyAssistantsReplay(m: Message, answers: seq<Block>)
    requires !m.role.Assistant?
    ensures forall other :: !Replays(m, answers, other)
  {
  }

  lemma NearestSnoc(ms: seq<Message>, answers: seq<Block>, name: string)
    requires ms != []
    ensures var n := |ms| - 1;
            NearestReplays(ms, answers, name) <==>
            || Replays(ms[n], answers, name)
            || (NearestReplays(ms[..n], answers, name) &&
                forall other :: other != "" ==> !Replays(ms[n], answers, other))
  {
    hide Replays;
    var n := |ms| - 1;
    if Replays(ms[n], answers, name) {
      assert NoneReplayedAfter(ms, answers, n);
    }
    if NearestReplays(ms, answers, name) && !Replays(ms[n], answers, name) {
      var j :| 0 <= j < |ms| && Replays(ms[j], answers, name) && NoneReplayedAfter(ms, answers, j);
      assert ms[..n][j] == ms[j] && NoneReplayedAfter(ms[..n], answers, j);
    }
    if NearestReplays(ms[..n], answers, name) && forall other :: other != "" ==> !Replays(ms[n], answers, other) {
      var j :| 0 <= j < n && Replays(ms[..n][j], answers, name) && NoneReplayedAfter(ms[..n], answers, j);
      forall k, other | j < k < |ms| && other != "" ensures !Replays(ms[k], answers, other) {
        assert k < n ==> ms[..n][k] == ms[k];
      }
      assert NoneReplayedAfter(ms, answers, j);
    }
  }

  /** A conversation replays a name exactly when its last message is the user's, and of the messages
      before it the nearest assistant message with a named call that the last message answers has such
      a call of this name. */
  lemma ReplayNamesIff(ms: seq<Message>, name: string)
    ensures name in TrailingReplayNames(ms) <==>
            && name != "" && |ms| >= 2 && ms[|ms| - 1].role.User?
            && NearestReplays(ms[..|ms| - 1], ms[|ms| - 1].content, name)
  {
    if |ms| >= 2 && ms[|ms| - 1].role.User? {
      var answers, before := ms[|ms| - 1].content, ms[..|ms| - 1];
      NamesBackwardIff(before, answers, name);
      if ResultIds(answers) == {} && NearestReplays(before, answers, name) {
        NothingAnswered(answers, before, name);
      }
    }
  }

  lemma NothingAnswered(answers: seq<Block>, ms: seq<Message>, name: string)
    requires ResultIds(answers) == {}
    ensures !NearestReplays(ms, answers, name)
  {
    forall m ensures !Replays(m, answers, name) {
      forall b ensures !IsReplayed(b, answers, name) {
        if b.id != "" {
          AnsweredIff(answers, b.id);
        }
      }
    }
  }
}
