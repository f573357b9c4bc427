/** What the steps before sending do to a conversation, told from the conversation and the request. */
module RequestLaws {
  import opened Seqs
  import opened Messages
  import opened ToolPairing
  import opened TurnMerging
  import opened TurnCollapse
  import opened ReplayTrim
  import opened TurnValidator
  import opened RequestSanitizer
  import opened ReplayHints

  // ---------------------------------------------------------------------
  // The front and the end of a conversation
  // ---------------------------------------------------------------------

  predicate AllSystem(ms: seq<Message>) {
    forall m :: m in ms ==> m.role.System?
  }

  lemma {:induction false} FrontStays(rule: StampRule, front: seq<Message>, rest: seq<Message>)
    requires AllSystem(front)
    ensures Collapse(front + rest) == front + Collapse(rest)
    ensures Merge(User, rule, front + rest) == front + Merge(User, rule, rest)
  {
    hide Collapse, Merge;
    if front == [] {
      assert front + rest == rest && [] + Collapse(rest) == Collapse(rest);
      assert [] + Merge(User, rule, rest) == Merge(User, rule, rest);
    } else {
      assert front[0] in front && forall m :: m in front[1..] ==> m in front;
      FrontStays(rule, front[1..], rest);
      Uncons(front, rest);
      SystemStays(rule, front + rest);
      Assoc([front[0]], front[1..], Collapse(rest));
      Assoc([front[0]], front[1..], Merge(User, rule, rest));
    }
  }

  lemma SystemStays(rule: StampRule, ms: seq<Message>)
    requires ms != [] && ms[0].role.System?
    ensures Collapse(ms) == [ms[0]] + Collapse(ms[1..])
    ensures Merge(User, rule, ms) == [ms[0]] + Merge(User, rule, ms[1..])
  {
    if |ms| == 1 {
      assert ms == [ms[0]] && ms[1..] == [];
    }
  }

  lemma {:induction false} LeadingIs(front: seq<Message>, rest: seq<Message>)
    requires AllSystem(front) && rest != [] && !rest[0].role.System?
    ensures LeadingSystem(front + rest) == |front|
  {
    LeadingSystemIs(front + rest, |front|);
  }

  /** The last two messages are calls and results alone. */
  predicate EndsInResults(ms: seq<Message>) {
    && |ms| >= 2 && OnlyResults(ms[|ms| - 1])
    && ms[|ms| - 2].role.Assistant? && HasCalls(ms[|ms| - 2])
  }

  predicate SameEnd(a: seq<Message>, b: seq<Message>) {
    |a| >= 2 && |b| >= 2 && a[|a| - 2] == b[|b| - 2] && a[|a| - 1] == b[|b| - 1]
  }

  lemma {:induction false} CollapseEnd(ms: seq<Message>)
    requires EndsInResults(ms)
    ensures SameEnd(Collapse(ms), ms)
    decreases |ms|
  {
    hide HasCalls, OnlyResults;
    if CanCollapse(ms) {
      assert |ms| > 4;
      CollapseEnd(ms[3..]);
      Cons(ms[2], Collapse(ms[3..]));
    } else if |ms| > 2 {
      CollapseEnd(ms[1..]);
      Cons(ms[0], Collapse(ms[1..]));
    } else {
      assert ms[1..][0] == ms[1] && Collapse(ms[1..][1..]) == [];
    }
  }

  lemma {:induction false} MergeEnd(rule: StampRule, ms: seq<Message>)
    requires |ms| >= 2 && !ms[|ms| - 2].role.User?
    ensures SameEnd(Merge(User, rule, ms), ms)
    decreases |ms|
  {
    hide Join;
    if ms[0].role.User? && ms[1].role.User? {
      MergeEnd(rule, [Join(ms[0], ms[1], rule)] + ms[2..]);
    } else if |ms| > 2 {
      MergeEnd(rule, ms[1..]);
    }
  }

  lemma TrimEnd(ms: seq<Message>, trimmed: seq<Message>)
    requires EndsInResults(ms) && IsTrimmed(ms, trimmed)
    ensures SameEnd(trimmed, ms)
  {
    if TrimApplies(ms) {
      var t: nat :| IsTurnStart(ms, LeadingSystem(ms), t) && trimmed == ms[..LeadingSystem(ms)] + ms[t..];
      assert t != |ms| - 1 && t != |ms| - 2;
    }
  }

  lemma TrimFront(front: seq<Message>, rest: seq<Message>, trimmed: seq<Message>)
    requires AllSystem(front) && rest != [] && !rest[0].role.System? && IsTrimmed(front + rest, trimmed)
    ensures LeadingSystem(trimmed) == |front| && front <= trimmed
    ensures forall m :: m in trimmed ==> m in front + rest
  {
    var ms := front + rest;
    LeadingIs(front, rest);
    if TrimApplies(ms) {
      var t: nat :| IsTurnStart(ms, LeadingSystem(ms), t) && trimmed == ms[..LeadingSystem(ms)] + ms[t..];
      assert ms[..|front|] == front && ms[t..][0] == ms[t];
      LeadingIs(front, ms[t..]);
    }
  }

  /** A conversation that is paired and ends in results ends in calls and their results. */
  lemma ResultsFollowCalls(ms: seq<Message>)
    requires Paired(ms) && ms != [] && OnlyResults(ms[|ms| - 1])
    ensures EndsInResults(ms)
  {
    var n := |ms| - 1;
    assert ResultsCalled(ms, n);
    var r := ms[n].content[0];
    assert r in ms[n].content && CallIn(ms[n - 1].content, r.toolUseId);
    var b :| b in ms[n - 1].content && b.kind.ToolUse? && b.id == r.toolUseId;
    assert b in ms[n - 1].content;
  }

  lemma {:induction false} NoNewMembers(ms: seq<Message>)
    ensures forall m :: m in Collapse(ms) ==> m in ms
    decreases |ms|
  {
    if ms != [] {
      if CanCollapse(ms) {
        NoNewMembers(ms[3..]);
      } else {
        NoNewMembers(ms[1..]);
      }
    }
  }

  /** Merging users makes no new system messages. */
  lemma {:induction false} NoNewSystems(rule: StampRule, ms: seq<Message>)
    ensures forall m :: m in Merge(User, rule, ms) && m.role.System? ==> m in ms
    decreases |ms|
  {
    if |ms| >= 2 {
      if ms[0].role.User? && ms[1].role.User? {
        NoNewSystems(rule, [Join(ms[0], ms[1], rule)] + ms[2..]);
      } else {
        NoNewSystems(rule, ms[1..]);
      }
    }
  }

  lemma MergedIs(ms: seq<Message>)
    requires Paired(ms) && Tidy(ms)
    ensures Merged(ms) == Merge(User, FirstStamp, Collapse(ms))
  {
    hide Paired, Tidy, Collapse, Merge;
    RepairFixpoints(ms);
  }

  lemma MergedFront(ms: seq<Message>, front: seq<Message>, rest: seq<Message>)
    requires Paired(ms) && Tidy(ms) && ms == front + rest && AllSystem(front) && rest != [] && !rest[0].role.System?
    ensures exists tail: seq<Message> :: Merged(ms) == front + tail && tail != [] && !tail[0].role.System?
  {
    hide Paired, Tidy, Collapse, Merge, Merged;
    MergedIs(ms);
    FrontStays(FirstStamp, front, rest);
    FrontStays(FirstStamp, front, Collapse(rest));
    CollapsedHeadRole(rest);
    MergeHead(User, FirstStamp, Collapse(rest));
  }

  /** A paired and tidy conversation up to the step before trimming: its leading system messages and
      its end stay, and no system message comes in. */
  lemma MergedKeeps(ms: seq<Message>)
    requires Paired(ms) && Tidy(ms) && EndsInResults(ms)
    ensures EndsInResults(Merged(ms)) && SameEnd(Merged(ms), ms)
    ensures var front := ms[..LeadingSystem(ms)];
            exists rest: seq<Message> :: Merged(ms) == front + rest && rest != [] && !rest[0].role.System?
    ensures forall m :: m in Merged(ms) && m.role.System? ==> m in ms
  {
    hide Paired, Tidy, HasCalls, OnlyResults, Collapse, Merge, Merged;
    var front, rest := ms[..LeadingSystem(ms)], ms[LeadingSystem(ms)..];
    assert ms == front + rest;
    assert rest[0] == ms[LeadingSystem(ms)];
    MergedFront(ms, front, rest);
    MergedIs(ms);
    CollapseEnd(ms);
    MergeEnd(FirstStamp, Collapse(ms));
    NoNewMembers(ms);
    NoNewSystems(FirstStamp, Collapse(ms));
  }

  lemma CollapsedHeadRole(ms: seq<Message>)
    requires ms != [] && !ms[0].role.System?
    ensures Collapse(ms) != [] && !Collapse(ms)[0].role.System?
  {
    CollapseHead(ms);
  }

  // ---------------------------------------------------------------------
  // The hint
  // ---------------------------------------------------------------------

  const WEB_SEARCH := "web_search"

  lemma EndReplays(ms: seq<Message>, other: string)
    requires |ms| >= 2 && ms[|ms| - 1].role.User?
    requires other != "" && Replays(ms[|ms| - 2], ms[|ms| - 1].content, other)
    ensures WEB_SEARCH in TrailingReplayNames(ms) <==> Replays(ms[|ms| - 2], ms[|ms| - 1].content, WEB_SEARCH)
  {
    hide Replays;
    var before, answers := ms[..|ms| - 1], ms[|ms| - 1].content;
    ReplayNamesIff(ms, WEB_SEARCH);
    assert before[|ms| - 2] == ms[|ms| - 2];
    if Replays(ms[|ms| - 2], answers, WEB_SEARCH) {
      assert NoneReplayedAfter(before, answers, |ms| - 2);
    }
  }

  /** Up to the step before the hint. */
  lemma TrimmedKeeps(ms: seq<Message>, trimmed: seq<Message>)
    requires Paired(ms) && Tidy(ms) && EndsInResults(ms) && IsTrimmed(Merged(ms), trimmed)
    ensures SameEnd(trimmed, ms)
    ensures LeadingSystem(trimmed) == LeadingSystem(ms) && ms[..LeadingSystem(ms)] <= trimmed
    ensures forall m :: m in trimmed && m.role.System? ==> m in ms
  {
    hide Paired, Tidy, HasCalls, OnlyResults, Merged, IsTrimmed;
    MergedKeeps(ms);
    var front := ms[..LeadingSystem(ms)];
    var rest: seq<Message> :| Merged(ms) == front + rest && rest != [] && !rest[0].role.System?;
    TrimEnd(Merged(ms), trimmed);
    TrimFront(front, rest, trimmed);
  }

  /** The request for a paired and tidy conversation that ends in results, some of a named call, and
      in which no system message has the hint: it has the hint exactly if a call of web_search is
      among those answered, right after the leading system messages, which are all kept; and it ends
      with the same calls and results. */
  lemma HintSentIff(ms: seq<Message>, sent: seq<Message>, other: string)
    requires IsSanitized(Provider("anthropic"), false, ms, sent) && Paired(ms) && Tidy(ms)
    requires ms != [] && OnlyResults(ms[|ms| - 1]) && !Hinted(ms, REPLAY_HINT)
    requires |ms| >= 2 && other != "" && Replays(ms[|ms| - 2], ms[|ms| - 1].content, other)
    ensures SameEnd(sent, ms) && ms[..LeadingSystem(ms)] <= sent
    ensures Hinted(sent, REPLAY_HINT) <==> Replays(ms[|ms| - 2], ms[|ms| - 1].content, WEB_SEARCH)
    ensures Hinted(sent, REPLAY_HINT) ==>
              |sent| > LeadingSystem(ms) && sent[LeadingSystem(ms)] == TextMessage(System, REPLAY_HINT)
  {
    hide Paired, Tidy, HasCalls, OnlyResults, Merged, IsTrimmed, Replays, TrailingReplayNames, Hinted, AddHint,
         LeadingSystem;
    ResultsFollowCalls(ms);
    var trimmed: seq<Message> :| IsTrimmed(Merged(ms), trimmed) &&
      sent == Finish(Provider("anthropic"), false, AddHint(trimmed, TrailingReplayNames(trimmed), REPLAY_HINT));
    TrimmedKeeps(ms, trimmed);
    OnlyUsersAnswer(ms[|ms| - 1]);
    EndReplays(trimmed, other);
    StillUnhinted(ms, trimmed);
    HintIsThere(trimmed);
  }

  lemma OnlyUsersAnswer(m: Message)
    requires OnlyResults(m)
    ensures m.role.User?
  {
  }

  lemma StillUnhinted(ms: seq<Message>, trimmed: seq<Message>)
    requires !Hinted(ms, REPLAY_HINT) && forall m :: m in trimmed && m.role.System? ==> m in ms
    ensures !Hinted(trimmed, REPLAY_HINT)
  {
    hide Contains, MessageText;
  }

  /** Where the hint goes. */
  lemma HintIsThere(ms: seq<Message>)
    requires |ms| >= 2 && !ms[|ms| - 2].role.System? && !Hinted(ms, REPLAY_HINT)
    ensures var sent := AddHint(ms, TrailingReplayNames(ms), REPLAY_HINT);
            && (Hinted(sent, REPLAY_HINT) <==> WEB_SEARCH in TrailingReplayNames(ms))
            && SameEnd(sent, ms) && ms[..LeadingSystem(ms)] <= sent
            && (Hinted(sent, REPLAY_HINT) ==>
                  |sent| > LeadingSystem(ms) && sent[LeadingSystem(ms)] == TextMessage(System, REPLAY_HINT))
  {
    hide Hinted, TrailingReplayNames;
    AddHintOnce(ms, TrailingReplayNames(ms), TrailingReplayNames(ms), REPLAY_HINT);
  }

  // ---------------------------------------------------------------------
  // Only the current turn is replayed
  // ---------------------------------------------------------------------

  /** Behind the leading system messages at most the first message has words of a user. */
  predicate WordsFirst(ms: seq<Message>) {
    forall i :: LeadingSystem(ms) < i < |ms| ==> !HasWords(ms[i])
  }

  lemma WordsAreUsers(m: Message)
    requires HasWords(m)
    ensures m.role.User?
  {
  }

  lemma TrimmedWordsFirst(ms: seq<Message>, trimmed: seq<Message>)
    requires IsTrimmed(ms, trimmed) && trimmed != [] && OnlyResults(trimmed[|trimmed| - 1])
    ensures WordsFirst(trimmed)
  {
    var n := LeadingSystem(ms);
    if TrimApplies(ms) {
      hide HasWords, TrimApplies;
      var t: nat :| IsTurnStart(ms, n, t) && trimmed == ms[..n] + ms[t..];
      assert !ms[t].role.System? by { WordsAreUsers(ms[t]); }
      LeadingIs(ms[..n], ms[t..]);
      forall i | n < i < |trimmed| ensures !HasWords(trimmed[i]) {
        assert trimmed[i] == ms[t + (i - n)];
      }
    }
  }

  lemma HintWordsFirst(ms: seq<Message>, names: set<string>)
    requires ms != [] && OnlyResults(ms[|ms| - 1]) && WordsFirst(ms)
    ensures WordsFirst(AddHint(ms, names, REPLAY_HINT))
  {
    hide Hinted, HasWords;
    var n, hinted := LeadingSystem(ms), AddHint(ms, names, REPLAY_HINT);
    if hinted != ms {
      assert n < |ms|;
      LeadingIs(ms[..n] + [TextMessage(System, REPLAY_HINT)], ms[n..]);
      forall i | n + 1 < i < |hinted| ensures !HasWords(hinted[i]) {
        assert hinted[i] == ms[i - 1];
      }
    }
  }

  lemma HintEnd(ms: seq<Message>, names: set<string>)
    requires var sent := AddHint(ms, names, REPLAY_HINT); sent != [] && OnlyResults(sent[|sent| - 1])
    ensures ms != [] && OnlyResults(ms[|ms| - 1])
  {
    hide Hinted;
  }

  /** A request that ends in results alone has no words of a user but in its first message after the
      leading system messages: earlier turns are gone. */
  lemma CurrentTurnOnly(ms: seq<Message>, sent: seq<Message>)
    requires IsSanitized(Provider("anthropic"), false, ms, sent)
    ensures sent != [] && OnlyResults(sent[|sent| - 1]) ==> WordsFirst(sent)
  {
    hide Merged, IsTrimmed, AddHint, TrailingReplayNames, OnlyResults;
    var trimmed: seq<Message> :| IsTrimmed(Merged(ms), trimmed) &&
      sent == Finish(Provider("anthropic"), false, AddHint(trimmed, TrailingReplayNames(trimmed), REPLAY_HINT));
    if sent != [] && OnlyResults(sent[|sent| - 1]) {
      HintEnd(trimmed, TrailingReplayNames(trimmed));
      TrimmedWordsFirst(Merged(ms), trimmed);
      HintWordsFirst(trimmed, TrailingReplayNames(trimmed));
    }
  }

  // ---------------------------------------------------------------------
  // No finished tool turn is sent
  // ---------------------------------------------------------------------

  predicate NoFinished(ms: seq<Message>) {
    forall i :: 0 <= i < |ms| ==> !CanCollapse(ms[i..])
  }

  lemma NoFinishedCons(ms: seq<Message>)
    requires ms != []
    ensures NoFinished(ms) <==> !CanCollapse(ms) && NoFinished(ms[1..])
  {
    hide CanCollapse;
    assert ms[0..] == ms;
    assert forall i :: 0 <= i < |ms[1..]| ==> ms[1..][i..] == ms[i + 1..];
    if !CanCollapse(ms) && NoFinished(ms[1..]) {
      forall i | 0 <= i < |ms| ensures !CanCollapse(ms[i..]) {
        if i > 0 {
          assert ms[1..][i - 1..] == ms[i..];
        }
      }
    }
  }

  predicate UsersSay(ms: seq<Message>) {
    forall m :: m in ms && m.role.User? ==> m.content != []
  }

  /** A user message that results are not expected from, joined with another one, has words. */
  lemma JoinedSays(open: set<string>, rule: StampRule, ms: seq<Message>)
    requires |ms| >= 2 && ms[0].role.User? && ms[1].role.User? && PairedFrom(open, ms) && UsersSay(ms)
    ensures var r := Merge(User, rule, ms); r != [] && !OnlyResults(r[0])
  {
    assert PairedFrom({}, ms[1..]) && ms[1..][0] == ms[1];
    var b := ms[1].content[0];
    assert b in ms[1].content && !b.kind.ToolResult?;
    var joined := [Join(ms[0], ms[1], rule)] + ms[2..];
    MergeHead(User, rule, joined);
    assert b in joined[0].content;
    assert forall x :: x in joined[0].content ==> x in Merge(User, rule, joined)[0].content;
  }

  lemma MergedHeadFinished(open: set<string>, rule: StampRule, ms: seq<Message>)
    requires ms != [] && ms[0].role.Assistant? && PairedFrom(open, ms) && UsersSay(ms)
    requires CanCollapse(Merge(User, rule, ms))
    ensures CanCollapse(ms)
  {
    hide HasCalls, OnlyResults;
    var rest := ms[1..];
    var r := Merge(User, rule, rest);
    assert Merge(User, rule, ms) == [ms[0]] + r;
    Cons(ms[0], r);
    MergeHead(User, rule, rest);
    assert forall m :: m in rest ==> m in ms;
    if |rest| >= 2 && rest[1].role.User? {
      OnlyUsersAnswer(r[0]);
      JoinedSays(PendingIds(ms[0]), rule, rest);
    } else {
      AfterOneUser(rule, rest);
    }
  }

  /** A user message that no other follows stays, and so does the assistant message after it. */
  lemma AfterOneUser(rule: StampRule, ms: seq<Message>)
    requires |Merge(User, rule, ms)| >= 3 && !(|ms| >= 2 && ms[1].role.User?)
    requires Merge(User, rule, ms)[1].role.Assistant?
    ensures var r := Merge(User, rule, ms); |ms| >= 3 && r[0] == ms[0] && r[1] == ms[1] && r[2].role == ms[2].role
  {
    var rest := ms[1..];
    Cons(ms[0], Merge(User, rule, rest));
    if rest != [] {
      assert rest[0] == ms[1];
      if |rest| >= 2 {
        Cons(rest[0], Merge(User, rule, rest[1..]));
        MergeHead(User, rule, rest[1..]);
      }
    }
  }

  lemma {:induction false} MergeNoFinished(open: set<string>, rule: StampRule, ms: seq<Message>)
    requires PairedFrom(open, ms) && UsersSay(ms) && NoFinished(ms)
    ensures NoFinished(Merge(User, rule, ms))
    decreases |ms|
  {
    hide CanCollapse, NoFinished, PairedFrom;
    if |ms| >= 2 {
      assert PairedFrom(PendingIds(ms[0]), ms[1..]) by { PairedTail(open, ms); }
      NoFinishedCons(ms);
      assert forall m :: m in ms[1..] ==> m in ms;
      if ms[0].role.User? && ms[1].role.User? {
        var joined := [Join(ms[0], ms[1], rule)] + ms[2..];
        NoFinishedCons(ms[1..]);
        assert ms[1..][1..] == ms[2..];
        NoFinishedCons(joined);
        Cons(Join(ms[0], ms[1], rule), ms[2..]);
        UserHeadUnfinished(joined);
        JoinedPaired(open, rule, ms);
        MergeNoFinished(open, rule, joined);
      } else {
        MergeNoFinished(PendingIds(ms[0]), rule, ms[1..]);
        var merged := [ms[0]] + Merge(User, rule, ms[1..]);
        NoFinishedCons(merged);
        Cons(ms[0], Merge(User, rule, ms[1..]));
        if ms[0].role.Assistant? {
          if CanCollapse(merged) {
            MergedHeadFinished(open, rule, ms);
          }
        } else {
          UserHeadUnfinished(merged);
        }
      }
    }
  }

  lemma PairedTail(open: set<string>, ms: seq<Message>)
    requires ms != [] && PairedFrom(open, ms)
    ensures PairedFrom(PendingIds(ms[0]), ms[1..])
  {
  }

  lemma UserHeadUnfinished(ms: seq<Message>)
    requires ms != [] && !ms[0].role.Assistant?
    ensures !CanCollapse(ms)
  {
  }

  lemma JoinedPaired(open: set<string>, rule: StampRule, ms: seq<Message>)
    requires |ms| >= 2 && ms[0].role.User? && ms[1].role.User? && PairedFrom(open, ms) && UsersSay(ms)
    ensures var joined := [Join(ms[0], ms[1], rule)] + ms[2..]; PairedFrom(open, joined) && UsersSay(joined)
  {
    var joined := [Join(ms[0], ms[1], rule)] + ms[2..];
    assert ms[1..][0] == ms[1] && ms[1..][1..] == ms[2..] && joined[1..] == ms[2..];
    assert PairedFrom({}, ms[1..]) && PairedFrom({}, ms[2..]);
    assert forall m :: m in ms[2..] ==> m in ms;
    assert ms[0] in ms;
  }

  lemma TrimmedNoFinished(ms: seq<Message>, trimmed: seq<Message>)
    requires NoFinished(ms) && IsTrimmed(ms, trimmed)
    ensures NoFinished(trimmed)
  {
    if TrimApplies(ms) {
      var n := LeadingSystem(ms);
      var t: nat :| IsTurnStart(ms, n, t) && trimmed == ms[..n] + ms[t..];
      forall i | 0 <= i < |trimmed| ensures !CanCollapse(trimmed[i..]) {
        if i < n {
          assert trimmed[i..][0] == ms[i];
        } else {
          assert trimmed[i..] == ms[t + (i - n)..];
        }
      }
    }
  }

  lemma HintNoFinished(ms: seq<Message>, names: set<string>)
    requires NoFinished(ms)
    ensures NoFinished(AddHint(ms, names, REPLAY_HINT))
  {
    hide Hinted, HasCalls, OnlyResults;
    var n, hinted := LeadingSystem(ms), AddHint(ms, names, REPLAY_HINT);
    if hinted != ms {
      forall i | 0 <= i < |hinted| ensures !CanCollapse(hinted[i..]) {
        if i <= n {
          assert hinted[i..][0].role.System?;
        } else {
          assert hinted[i..] == ms[i - 1..];
        }
      }
    }
  }

  /** If no finished turn answers an unfinished one, no finished tool turn is in the request. */
  lemma FinishedTurnsGone(ms: seq<Message>, sent: seq<Message>)
    requires IsSanitized(Provider("anthropic"), false, ms, sent) && NoneNested(Repair(ms))
    ensures forall i :: 0 <= i < |sent| ==> !CanCollapse(sent[i..])
  {
    hide Repair, Collapse, Merge, IsTrimmed, AddHint, TrailingReplayNames, NoneNested, CanCollapse, Tidy, PairedFrom;
    var trimmed: seq<Message> :| IsTrimmed(Merged(ms), trimmed) &&
      sent == Finish(Provider("anthropic"), false, AddHint(trimmed, TrailingReplayNames(trimmed), REPLAY_HINT));
    var repaired := Repair(ms);
    RepairedIsFit(ms);
    CollapseIdempotentIff(repaired);
    CollapseUnchanged(Collapse(repaired));
    CollapsePaired({}, repaired);
    NoNewMembers(repaired);
    MergeNoFinished({}, FirstStamp, Collapse(repaired));
    TrimmedNoFinished(Merged(ms), trimmed);
    HintNoFinished(trimmed, TrailingReplayNames(trimmed));
  }

  lemma RepairedIsFit(ms: seq<Message>)
    ensures PairedFrom({}, Repair(ms)) && UsersSay(Repair(ms))
  {
    hide Repair, Paired;
    RepairPaired(ms);
    PairedIff(Repair(ms));
    RepairIdempotent(ms);
    RepairFixpoints(Repair(ms));
  }
}
