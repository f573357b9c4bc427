/** Merging adjacent messages of one role, in the agent loop (first timestamp kept) and in the turn
    validator (empty messages skipped, latest timestamp). */
module TurnMerging {
  import opened Seqs
  import opened Messages

  datatype StampRule = FirstStamp | LatestStamp

  function Join(first: Message, second: Message, rule: StampRule): Message {
    Message(first.role, first.content + second.content,
            if rule.LatestStamp? && second.timestamp != "" then second.timestamp else first.timestamp)
  }

  function Merge(role: Role, rule: StampRule, ms: seq<Message>): seq<Message>
    decreases |ms|
  {
    if |ms| < 2 then ms
    else if ms[0].role == role && ms[1].role == role then Merge(role, rule, [Join(ms[0], ms[1], rule)] + ms[2..])
    else [ms[0]] + Merge(role, rule, ms[1..])
  }

  function WithContent(ms: seq<Message>): seq<Message> {
    if ms == [] then [] else (if ms[0].content == [] then [] else [ms[0]]) + WithContent(ms[1..])
  }

  // ---------------------------------------------------------------------
  // The loops
  // ---------------------------------------------------------------------

  /** The merged list once `rest` has been processed after `done`, whose last message may still grow. */
  ghost function Finished(role: Role, rule: StampRule, done: seq<Message>, rest: seq<Message>): seq<Message> {
    if done == [] then Merge(role, rule, rest)
    else done[..|done| - 1] + Merge(role, rule, [done[|done| - 1]] + rest)
  }

  lemma FinishedExtend(role: Role, rule: StampRule, done: seq<Message>, msg: Message, rest: seq<Message>)
    requires done != [] && done[|done| - 1].role == role && msg.role == role
    ensures Finished(role, rule, done, [msg] + rest) ==
            Finished(role, rule, done[|done| - 1 := Join(done[|done| - 1], msg, rule)], rest)
  {
    var back := done[|done| - 1];
    var all := [back] + ([msg] + rest);
    assert all[0] == back && all[1] == msg && all[2..] == rest;
    assert done[|done| - 1 := Join(back, msg, rule)][..|done| - 1] == done[..|done| - 1];
  }

  lemma FinishedPush(role: Role, rule: StampRule, done: seq<Message>, msg: Message, rest: seq<Message>)
    requires done == [] || !(done[|done| - 1].role == role && msg.role == role)
    ensures Finished(role, rule, done, [msg] + rest) == Finished(role, rule, done + [msg], rest)
  {
    if done != [] {
      var back := done[|done| - 1];
      var all := [back] + ([msg] + rest);
      assert all[0] == back && all[1] == msg && all[1..] == [msg] + rest;
      Assoc(done[..|done| - 1], [back], Merge(role, rule, [msg] + rest));
      assert done[..|done| - 1] + [back] == done;
    }
    assert (done + [msg])[..|done|] == done;
  }

  lemma FinishedEnd(role: Role, rule: StampRule, done: seq<Message>)
    ensures Finished(role, rule, done, []) == done
  {
    if done != [] {
      assert [done[|done| - 1]] + [] == [done[|done| - 1]];
    }
  }

  method MergeConsecutiveUserMessages(messages: seq<Message>) returns (merged: seq<Message>)
    ensures merged == Merge(User, FirstStamp, messages)
  {
    merged := [];
    Whole(messages);
    for i := 0 to |messages|
      invariant Finished(User, FirstStamp, merged, messages[i..]) == Merge(User, FirstStamp, messages)
    {
      var msg := messages[i];
      SplitAt(messages, i);
      if merged != [] && msg.role.User? && merged[|merged| - 1].role.User? {
        FinishedExtend(User, FirstStamp, merged, msg, messages[i + 1..]);
        merged := merged[|merged| - 1 := Join(merged[|merged| - 1], msg, FirstStamp)];
      } else {
        FinishedPush(User, FirstStamp, merged, msg, messages[i + 1..]);
        merged := merged + [msg];
      }
    }
    FinishedEnd(User, FirstStamp, merged);
  }

  method MergeConsecutiveRole(messages: seq<Message>, role: Role) returns (result: seq<Message>)
    ensures result == Merge(role, LatestStamp, WithContent(messages))
  {
    result := [];
    Whole(messages);
    for i := 0 to |messages|
      invariant Finished(role, LatestStamp, result, WithContent(messages[i..]))
                  == Merge(role, LatestStamp, WithContent(messages))
    {
      var msg := messages[i];
      SplitAt(messages, i);
      if msg.content == [] {
        assert WithContent(messages[i..]) == WithContent(messages[i + 1..]);
        continue;
      }
      var rest := WithContent(messages[i + 1..]);
      assert WithContent(messages[i..]) == [msg] + rest;
      if result != [] && result[|result| - 1].role == role && msg.role == role {
        FinishedExtend(role, LatestStamp, result, msg, rest);
        result := result[|result| - 1 := Join(result[|result| - 1], msg, LatestStamp)];
      } else {
        FinishedPush(role, LatestStamp, result, msg, rest);
        result := result + [msg];
      }
    }
    FinishedEnd(role, LatestStamp, result);
  }

  // ---------------------------------------------------------------------
  // What merging guarantees
  // ---------------------------------------------------------------------

  /** Merging only extends the first message; later ones never become the head. */
  lemma {:induction false} MergeHead(role: Role, rule: StampRule, ms: seq<Message>)
    requires ms != []
    ensures Merge(role, rule, ms) != []
    ensures var h := Merge(role, rule, ms)[0]; h.role == ms[0].role && ms[0].content <= h.content
    decreases |ms|
  {
    if |ms| >= 2 && ms[0].role == role && ms[1].role == role {
      MergeHead(role, rule, [Join(ms[0], ms[1], rule)] + ms[2..]);
    }
  }

  lemma {:induction false} MergeNoAdjacent(role: Role, rule: StampRule, ms: seq<Message>)
    ensures NoAdjacent(role, Merge(role, rule, ms))
    decreases |ms|
  {
    if |ms| < 2 {
    } else if ms[0].role == role && ms[1].role == role {
      MergeNoAdjacent(role, rule, [Join(ms[0], ms[1], rule)] + ms[2..]);
    } else {
      var tail := Merge(role, rule, ms[1..]);
      MergeNoAdjacent(role, rule, ms[1..]);
      MergeHead(role, rule, ms[1..]);
      forall i: nat | i + 1 < |[ms[0]] + tail|
        ensures !(([ms[0]] + tail)[i].role == role && ([ms[0]] + tail)[i + 1].role == role)
      {
        if i > 0 {
          assert ([ms[0]] + tail)[i] == tail[i - 1] && ([ms[0]] + tail)[i + 1] == tail[i - 1 + 1];
        }
      }
    }
  }

  lemma TaggedConcat(role: Role, a: seq<Block>, b: seq<Block>)
    ensures Tagged(role, a + b) == Tagged(role, a) + Tagged(role, b)
  {
  }

  /** Merging moves message boundaries and nothing else. */
  lemma {:induction false} MergeFlatten(role: Role, rule: StampRule, ms: seq<Message>)
    ensures Flatten(Merge(role, rule, ms)) == Flatten(ms)
    decreases |ms|
  {
    if |ms| < 2 {
    } else if ms[0].role == role && ms[1].role == role {
      var j := Join(ms[0], ms[1], rule);
      MergeFlatten(role, rule, [j] + ms[2..]);
      Cons(j, ms[2..]);
      TaggedConcat(role, ms[0].content, ms[1].content);
      assert ms[1..][0] == ms[1] && ms[1..][1..] == ms[2..];
      Assoc(Tagged(role, ms[0].content), Tagged(role, ms[1].content), Flatten(ms[2..]));
    } else {
      MergeFlatten(role, rule, ms[1..]);
      Cons(ms[0], Merge(role, rule, ms[1..]));
    }
  }

  lemma {:induction false} MergeUserWords(role: Role, rule: StampRule, ms: seq<Message>)
    ensures UserWords(Merge(role, rule, ms)) == UserWords(ms)
    decreases |ms|
  {
    if |ms| < 2 {
    } else if ms[0].role == role && ms[1].role == role {
      var j := Join(ms[0], ms[1], rule);
      MergeUserWords(role, rule, [j] + ms[2..]);
      Cons(j, ms[2..]);
      WordsConcat(ms[0].content, ms[1].content);
      assert ms[1..][0] == ms[1] && ms[1..][1..] == ms[2..];
      Assoc(WordsOfMessage(ms[0]), WordsOfMessage(ms[1]), UserWords(ms[2..]));
    } else {
      MergeUserWords(role, rule, ms[1..]);
      Cons(ms[0], Merge(role, rule, ms[1..]));
    }
  }

  lemma {:induction false} MergeUnchanged(role: Role, rule: StampRule, ms: seq<Message>)
    requires NoAdjacent(role, ms)
    ensures Merge(role, rule, ms) == ms
    decreases |ms|
  {
    if |ms| >= 2 {
      assert !(ms[0].role == role && ms[0 + 1].role == role);
      forall i: nat | i + 1 < |ms[1..]| ensures !(ms[1..][i].role == role && ms[1..][i + 1].role == role) {
        assert ms[1..][i] == ms[i + 1] && ms[1..][i + 1] == ms[(i + 1) + 1];
      }
      MergeUnchanged(role, rule, ms[1..]);
    }
  }

  // ---------------------------------------------------------------------
  // Merging users keeps calls and results paired
  // ---------------------------------------------------------------------

  lemma NextResultsGrow(rule: StampRule, ms: seq<Message>)
    ensures NextResultIds(ms) <= NextResultIds(Merge(User, rule, ms))
  {
    if ms != [] {
      MergeHead(User, rule, ms);
      assert forall b :: b in ms[0].content ==> b in Merge(User, rule, ms)[0].content;
    }
  }

  lemma {:induction false} MergeUsersPaired(open: set<string>, rule: StampRule, ms: seq<Message>)
    requires PairedFrom(open, ms)
    ensures PairedFrom(open, Merge(User, rule, ms))
    decreases |ms|
  {
    if |ms| < 2 {
    } else if ms[0].role.User? && ms[1].role.User? {
      var j := Join(ms[0], ms[1], rule);
      assert ms[1..][0] == ms[1] && ms[1..][1..] == ms[2..];
      assert ResultsWithin(ms[1], {});
      Cons(j, ms[2..]);
      MergeUsersPaired(open, rule, [j] + ms[2..]);
    } else {
      MergeUsersPaired(PendingIds(ms[0]), rule, ms[1..]);
      NextResultsGrow(rule, ms[1..]);
      Cons(ms[0], Merge(User, rule, ms[1..]));
    }
  }

  lemma {:induction false} MergeUsersForward(rule: StampRule, ms: seq<Message>)
    requires ForwardFrom(ms)
    ensures ForwardFrom(Merge(User, rule, ms))
    decreases |ms|
  {
    if |ms| < 2 {
    } else if ms[0].role.User? && ms[1].role.User? {
      var j := Join(ms[0], ms[1], rule);
      assert ms[1..][0] == ms[1] && ms[1..][1..] == ms[2..];
      Cons(j, ms[2..]);
      MergeUsersForward(rule, [j] + ms[2..]);
    } else {
      MergeUsersForward(rule, ms[1..]);
      NextResultsGrow(rule, ms[1..]);
      Cons(ms[0], Merge(User, rule, ms[1..]));
    }
  }

  /** A message that answers calls is not empty, so dropping the empty ones separates no pair. */
  lemma {:induction false} WithContentForward(ms: seq<Message>)
    requires ForwardFrom(ms)
    ensures ForwardFrom(WithContent(ms))
    ensures NextResultIds(ms) != {} ==> NextResultIds(WithContent(ms)) == NextResultIds(ms)
  {
    if ms != [] {
      WithContentForward(ms[1..]);
      if ms[0].content != [] {
        Cons(ms[0], WithContent(ms[1..]));
      } else {
        assert WithContent(ms) == WithContent(ms[1..]);
      }
    }
  }

  lemma {:induction false} WithContentUserWords(ms: seq<Message>)
    ensures UserWords(WithContent(ms)) == UserWords(ms)
  {
    if ms != [] {
      WithContentUserWords(ms[1..]);
      if ms[0].content != [] {
        Cons(ms[0], WithContent(ms[1..]));
      } else {
        assert WithContent(ms) == WithContent(ms[1..]);
      }
    }
  }

  lemma {:induction false} WithContentAll(ms: seq<Message>)
    requires forall m :: m in ms ==> m.content != []
    ensures WithContent(ms) == ms
  {
    if ms != [] {
      WithContentAll(ms[1..]);
    }
  }
}
