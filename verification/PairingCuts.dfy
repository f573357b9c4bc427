/** When cutting a conversation tears a tool result from its call. Compression and the overflow
    recovery both keep an end of the messages. */
module PairingCuts {
  import opened Seqs
  import opened Messages
  import opened ContextPruner
  import AgentTurns

  /** A user message that answers calls. */
  predicate Answers(m: Message) {
    m.role.User? && HasResults(m)
  }

  lemma {:induction false} MoreOpen(open: set<string>, more: set<string>, ms: seq<Message>)
    requires PairedFrom(open, ms) && (open <= more || (ms != [] && !Answers(ms[0])))
    ensures PairedFrom(more, ms)
  {
  }

  lemma NothingOpen(ms: seq<Message>)
    requires ms != [] && Answers(ms[0])
    ensures !PairedFrom({}, ms)
  {
    var r :| r in ms[0].content && r.kind.ToolResult?;
    assert r.toolUseId !in {};
  }

  lemma {:induction false} PairedEnd(open: set<string>, ms: seq<Message>, start: nat)
    requires PairedFrom(open, ms) && start < |ms|
    ensures exists now: set<string> :: PairedFrom(now, ms[start..])
    decreases |ms|
  {
    if start > 0 {
      PairedEnd(PendingIds(ms[0]), ms[1..], start - 1);
      assert ms[1..][start - 1..] == ms[start..];
    } else {
      assert ms[0..] == ms;
    }
  }

  /** The end of a paired list is paired exactly when it does not start with an answer. */
  lemma PairedEndIff(ms: seq<Message>, start: nat)
    requires PairedFrom({}, ms) && start <= |ms|
    ensures PairedFrom({}, ms[start..]) <==> start == |ms| || !Answers(ms[start])
  {
    if start < |ms| {
      PairedEnd({}, ms, start);
      var now: set<string> :| PairedFrom(now, ms[start..]);
      if Answers(ms[start]) {
        NothingOpen(ms[start..]);
      } else {
        MoreOpen(now, {}, ms[start..]);
      }
    }
  }

  lemma SameNext(ms: seq<Message>)
    ensures NextResultIds(ms) <= NextResultIds(NonSystems(ms))
  {
  }

  /** A system message stands nowhere between a call and its answer. */
  lemma {:induction false} NonSystemsPaired(open: set<string>, ms: seq<Message>)
    requires PairedFrom(open, ms)
    ensures PairedFrom(open, NonSystems(ms))
    decreases |ms|
  {
    if ms != [] {
      var rest := NonSystems(ms[1..]);
      NonSystemsPaired(PendingIds(ms[0]), ms[1..]);
      if ms[0].role.System? {
        assert PendingIds(ms[0]) == {};
        MoreOpen({}, open, rest);
        assert NonSystems(ms) == rest;
      } else {
        Cons(ms[0], rest);
        SameNext(ms[1..]);
        assert NonSystems(ms) == [ms[0]] + rest;
        assert HeadAnswered([ms[0]] + rest);
      }
    }
  }

  lemma NonSystemsStart(ms: seq<Message>)
    requires ms != [] && !ms[0].role.System?
    ensures NonSystems(ms) != [] && NonSystems(ms)[0] == ms[0]
  {
  }

  /** Messages in front that neither call nor answer. */
  lemma {:induction false} SilentFront(front: seq<Message>, ms: seq<Message>)
    requires forall m :: m in front ==> m.role.System?
    ensures PairedFrom({}, front + ms) <==> PairedFrom({}, ms)
  {
    if front == [] {
      assert front + ms == ms;
    } else {
      Uncons(front, ms);
      assert front[0] in front && forall m :: m in front[1..] ==> m in front;
      SilentFront(front[1..], ms);
    }
  }

  lemma {:induction false} OnlySystems(ms: seq<Message>)
    ensures forall m :: m in Systems(ms) ==> m.role.System?
  {
    if ms != [] {
      OnlySystems(ms[1..]);
    }
  }

  /** The cut of a paired history is paired exactly when it does not start with an answer. */
  lemma CompactedPairedIff(ms: seq<Message>, keep: int, preserveSystem: bool)
    requires Paired(ms)
    ensures var start := KeepFrom(ms, keep);
            Paired(Compacted(ms, keep, preserveSystem)) <==> start >= |ms| || !Answers(ms[start])
  {
    hide Paired;
    var start := KeepFrom(ms, keep);
    var from := if start <= |ms| then start else |ms|;
    var recent := ms[from..];
    PairedIff(ms);
    PairedIff(Compacted(ms, keep, preserveSystem));
    PairedEndIff(ms, from);
    if preserveSystem {
      OnlySystems(ms);
      SilentFront(Systems(ms), NonSystems(recent));
      if start < |ms| && Answers(ms[start]) {
        NonSystemsStart(recent);
        NothingOpen(NonSystems(recent));
      } else {
        NonSystemsPaired({}, recent);
      }
    }
  }

  function CutAt(ms: seq<Message>, target: int, s: Strategy): nat {
    KeepFrom(ms, Keep(|ms|, Ratio(target, Estimate(ms)), s.minMessages))
  }

  lemma SameAnswers(a: Message, b: Message)
    requires SameShape(a, b)
    ensures Answers(a) <==> Answers(b)
  {
    if Answers(a) {
      var i :| 0 <= i < |a.content| && a.content[i].kind.ToolResult?;
      assert SameBlockShape(a.content[i], b.content[i]);
      assert b.content[i] in b.content;
    }
    if Answers(b) {
      var i :| 0 <= i < |b.content| && b.content[i].kind.ToolResult?;
      assert SameBlockShape(a.content[i], b.content[i]);
      assert a.content[i] in a.content;
    }
  }

  /** Compression keeps a history paired exactly when it does not cut it, or does not cut right
      before an answer. */
  lemma CompressedPairedIff(ms: seq<Message>, target: int, s: Strategy)
    requires Compressible(ms, target) && Paired(ms)
    ensures Paired(Compressed(ms, target, s)) <==>
            !Cuts(ms, target, s) || CutAt(ms, target, s) >= |ms| || !Answers(ms[CutAt(ms, target, s)])
  {
    hide Paired, Ratio, Keep, CompressOptions, Pruned, Estimate, Compacted, Answers;
    var opts := CompressOptions(Ratio(target, Estimate(ms)), target, s);
    var pruned := PrunedFor(ms, target, s);
    PrunedShape(ms, opts);
    PruneKeepsPairing(ms, opts);
    CompactedPairedIff(pruned, Keep(|pruned|, Ratio(target, Estimate(ms)), s.minMessages), s.preserveSystem);
    var start := CutAt(ms, target, s);
    if start < |ms| {
      SameAnswers(ms[start], pruned[start]);
    }
  }

  // ---------------------------------------------------------------------
  // It does happen
  // ---------------------------------------------------------------------

  function Said(role: Role, text: string): Message {
    Message(role, [MakeText(text)], "")
  }

  /** A history of four exchanges, the second of them with a tool call. */
  function History(): seq<Message> {
    var ask, reply := Said(User, "aaaaaaaa"), Said(Assistant, "bbbbbbbb");
    [ask, reply, ask, Message(Assistant, [MakeToolUse("c", "t", "{}")], ""),
     Message(User, [MakeToolResult("c", "dddddddd")], ""), reply, ask, reply, ask]
  }

  lemma HistoryPaired()
    ensures Paired(History())
  {
    var ms := History();
    forall i: nat | i < |ms| ensures CallsAnswered(ms, i) && ResultsCalled(ms, i) {
      if i == 3 {
        assert ms[4].content[0] in ms[4].content;
      } else if i == 4 {
        assert ms[3].content[0] in ms[3].content;
      }
    }
  }

  lemma HistorySizes()
    ensures Estimate(History()) == 29 && AssistantsFrom(History(), 5) == 2
  {
    hide History, Estimate, AssistantsFrom, EstimateMessage;
    HistoryParts();
    Whole(History());
    LastFour(History());
    FirstFive(History());
  }

  lemma LastFour(ms: seq<Message>)
    requires |ms| == 9
    ensures Estimate(ms[5..]) ==
            EstimateMessage(ms[5]) + EstimateMessage(ms[6]) + EstimateMessage(ms[7]) + EstimateMessage(ms[8])
    ensures ms[5].role.Assistant? && ms[7].role.Assistant? && ms[6].role.User? && ms[8].role.User? ==>
              AssistantsFrom(ms, 5) == 2
  {
    hide EstimateMessage, Estimate;
    Tail(ms, 5);
    Tail(ms, 6);
    Tail(ms, 7);
    Tail(ms, 8);
    assert Estimate(ms[9..]) == 0 by { Nothing(ms[9..]); }
    assert AssistantsFrom(ms, 7) == (if ms[7].role.Assistant? then 1 else 0) + AssistantsFrom(ms, 8);
  }

  lemma FirstFive(ms: seq<Message>)
    requires |ms| == 9
    ensures Estimate(ms[0..]) == EstimateMessage(ms[0]) + EstimateMessage(ms[1]) + EstimateMessage(ms[2]) +
                                 EstimateMessage(ms[3]) + EstimateMessage(ms[4]) + Estimate(ms[5..])
  {
    hide EstimateMessage, Estimate;
    Tail(ms, 4);
    Tail(ms, 3);
    Tail(ms, 2);
    Tail(ms, 1);
    Tail(ms, 0);
  }

  lemma Nothing(ms: seq<Message>)
    requires ms == []
    ensures Estimate(ms) == 0
  {
  }

  lemma Tail(ms: seq<Message>, i: nat)
    requires i < |ms|
    ensures Estimate(ms[i..]) == EstimateMessage(ms[i]) + Estimate(ms[i + 1..])
  {
    SplitAt(ms, i);
  }

  lemma HistoryParts()
    ensures var ms := History();
            && |ms| == 9 && ms[9..] == []
            && (forall i: nat :: i in {0, 2, 4, 6, 8} ==> EstimateMessage(ms[i]) == 3 && ms[i].role.User?)
            && (forall i: nat :: i in {1, 5, 7} ==> EstimateMessage(ms[i]) == 4 && ms[i].role.Assistant?)
            && EstimateMessage(ms[3]) == 2 && ms[3].role.Assistant?
            && (forall i: nat :: i < 9 ==> (HasResults(ms[i]) <==> i == 4))
  {
  }

  /** By default tool calls and system messages are to be preserved. */
  function DefaultStrategy(): Strategy {
    Strategy(true, true, true, 5)
  }

  function DefaultOptions(): Options {
    CompressOptions(17.0 / 29.0, 17, DefaultStrategy())
  }

  lemma OptionsOf()
    ensures DefaultOptions().protectRecent >= 3 && Budget(DefaultOptions()) == 68
  {
  }

  lemma WithinBudget(opts: Options, ms: seq<Message>)
    requires Budget(opts) >= Estimate(ms)
    ensures Effective(opts, ms) == opts
  {
    hide Budget, Estimate, Truncate;
  }

  lemma HistoryUnpruned()
    ensures Pruned(History(), DefaultOptions()) == History()
  {
    hide History, DefaultOptions, Effective, Budget, Estimate;
    OptionsOf();
    HistorySizes();
    WithinBudget(DefaultOptions(), History());
    HistoryParts();
    forall i: nat | i < 9 ensures Pruned(History(), DefaultOptions())[i] == History()[i] {
      PruneLeavesRecent(History(), DefaultOptions(), i);
    }
  }

  /** A paired history that the default compression to 17 tokens leaves with a result and no call. */
  lemma CompressTearsPair()
    ensures Estimate(History()) == 29 && Paired(History())
    ensures !Paired(Compressed(History(), 17, DefaultStrategy()))
  {
    HistorySizes();
    HistoryPaired();
    HistoryUnpruned();
    HistoryParts();
    hide History, Pruned, Paired, CompressOptions;
    assert CutAt(History(), 17, DefaultStrategy()) == 4;
    assert Cuts(History(), 17, DefaultStrategy());
    CompressedPairedIff(History(), 17, DefaultStrategy());
  }

  // ---------------------------------------------------------------------
  // The overflow recovery
  // ---------------------------------------------------------------------

  /** After a context overflow a paired request stays paired exactly when what is kept of it does not
      start with an answer. */
  lemma RecoveryPairedIff(turn: AgentTurns.Turn, ms: seq<Message>)
    requires Paired(ms) && |ms| >= 2
    ensures Paired(AgentTurns.Compacted(turn, ms)) <==> !Answers(ms[|ms| - AgentTurns.KeptOnOverflow(|ms|)])
  {
    hide Paired;
    var from := |ms| - AgentTurns.KeptOnOverflow(|ms|);
    var front := AgentTurns.Prompt(turn) + [TextMessage(System, AgentTurns.OVERFLOW_NOTICE)];
    PairedIff(ms);
    PairedIff(AgentTurns.Compacted(turn, ms));
    PairedEndIff(ms, from);
    SilentFront(front, ms[from..]);
  }
}
