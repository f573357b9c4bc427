/** What the critical sections of the queue do, told from the lanes and commands alone. */
module QueueLaws {
  import opened Seqs
  import opened QueueText
  import opened SessionLanes
  import opened CommandQueues

  // ---------------------------------------------------------------------
  // The steering text
  // ---------------------------------------------------------------------

  /** Texts joined by blank lines. */
  function JoinedBy(texts: seq<string>): string
    requires texts != []
  {
    if |texts| == 1 then texts[0] else texts[0] + "\n\n" + JoinedBy(texts[1..])
  }

  /** The first k messages are empty, the next one is not. */
  predicate BlankUpTo(cs: seq<Command>, k: nat) {
    k < |cs| && cs[k].message != "" && forall i :: 0 <= i < k ==> cs[i].message == ""
  }

  predicate AllBlank(cs: seq<Command>) {
    forall c :: c in cs ==> c.message == ""
  }

  /** Each message behind a blank line. */
  function Trailing(texts: seq<string>): string {
    if texts == [] then "" else "\n\n" + texts[0] + Trailing(texts[1..])
  }

  lemma {:induction false} JoinedIsTrailing(texts: seq<string>)
    requires texts != []
    ensures JoinedBy(texts) == texts[0] + Trailing(texts[1..])
  {
    if |texts| > 1 {
      JoinedIsTrailing(texts[1..]);
      Assoc(texts[0], "\n\n", texts[1] + Trailing(texts[1..][1..]));
      Assoc("\n\n", texts[1], Trailing(texts[1..][1..]));
    } else {
      assert texts[0] + "" == texts[0];
    }
  }

  lemma {:induction false} BlankSteersNothing(cs: seq<Command>)
    requires AllBlank(cs)
    ensures Steering(cs) == ""
  {
    if cs != [] {
      var n := |cs| - 1;
      assert cs[n] in cs && forall c :: c in cs[..n] ==> c in cs;
      BlankSteersNothing(cs[..n]);
    }
  }

  /** Once there is text, every further message comes behind a blank line. */
  lemma {:induction false} SteeringGoesOn(a: seq<Command>, b: seq<Command>)
    requires Steering(a) != ""
    ensures Steering(a + b) == Steering(a) + Trailing(Messages(b))
    decreases |b|
  {
    if b == [] {
      assert a + b == a && Steering(a) + "" == Steering(a);
    } else {
      assert (a + [b[0]])[..|a|] == a;
      assert Steering(a + [b[0]]) == Steering(a) + "\n\n" + b[0].message;
      SteeringGoesOn(a + [b[0]], b[1..]);
      assert a + [b[0]] + b[1..] == a + b;
      assert Messages(b)[1..] == Messages(b[1..]);
      Assoc(Steering(a), "\n\n" + b[0].message, Trailing(Messages(b[1..])));
      Assoc(Steering(a), "\n\n", b[0].message);
    }
  }

  /** The steering text of a queue is its messages, in order, joined by blank lines, from the first
      one on that is not empty. */
  lemma SteeringIs(cs: seq<Command>, k: nat)
    requires BlankUpTo(cs, k)
    ensures Steering(cs) == JoinedBy(Messages(cs[k..]))
    ensures Steering(cs) != ""
  {
    var front, rest := cs[..k + 1], cs[k + 1..];
    assert front[..k] == cs[..k] && AllBlank(cs[..k]);
    BlankSteersNothing(cs[..k]);
    assert Steering(front) == "" + cs[k].message == cs[k].message;
    SteeringGoesOn(front, rest);
    assert front + rest == cs;
    var texts := Messages(cs[k..]);
    JoinedIsTrailing(texts);
    assert texts[1..] == Messages(rest);
  }

  lemma {:induction false} BlankOrNot(cs: seq<Command>) returns (k: nat)
    ensures k <= |cs| && if k == |cs| then AllBlank(cs) else BlankUpTo(cs, k)
  {
    k := 0;
    while k < |cs| && cs[k].message == ""
      invariant k <= |cs| && forall i :: 0 <= i < k ==> cs[i].message == ""
    {
      k := k + 1;
    }
  }

  lemma {:induction false} TrailingSize(texts: seq<string>)
    ensures |Trailing(texts)| >= 2 * |texts|
  {
    if texts != [] {
      TrailingSize(texts[1..]);
    }
  }

  lemma {:induction false} TrailingConcat(a: seq<string>, b: seq<string>)
    ensures Trailing(a + b) == Trailing(a) + Trailing(b)
  {
    if a == [] {
      assert a + b == b;
    } else {
      TrailingConcat(a[1..], b);
      Uncons(a, b);
      Assoc("\n\n" + a[0], Trailing(a[1..]), Trailing(b));
    }
  }

  /** Two queues behind each other steer with both texts, joined by a blank line, exactly when the
      second one starts with a message that is not empty, or is a single message. */
  lemma SteeringConcatIff(a: seq<Command>, b: seq<Command>)
    requires Steering(a) != "" && b != []
    ensures Steering(a + b) == Steering(a) + "\n\n" + Steering(b) <==> b[0].message != "" || |b| == 1
  {
    hide Steering;
    SteeringGoesOn(a, b);
    var k := BlankOrNot(b);
    var texts := Messages(b);
    if k < |b| {
      SteeringIs(b, k);
      JoinedIsTrailing(Messages(b[k..]));
      assert texts == texts[..k] + ([texts[k]] + texts[k + 1..]) && texts[k..] == Messages(b[k..]);
      TrailingConcat(texts[..k], [texts[k]] + texts[k + 1..]);
      Cons(texts[k], texts[k + 1..]);
      assert Messages(b[k..])[1..] == texts[k + 1..];
      assert "\n\n" + texts[k] + Trailing(texts[k + 1..]) == "\n\n" + Steering(b);
      Assoc(Steering(a), "\n\n", Steering(b));
      TrailingSize(texts[..k]);
      if k == 0 {
        assert texts[..0] == [];
      }
    } else {
      BlankSteersNothing(b);
      TrailingSize(texts);
      if |b| == 1 {
        assert b[0] in b && texts[1..] == [] && Trailing(texts) == "\n\n" + texts[0] + "";
        assert Steering(a) + "\n\n" + "" == Steering(a) + "\n\n";
      }
    }
  }

  // ---------------------------------------------------------------------
  // The command dispatched
  // ---------------------------------------------------------------------

  /** text is the messages of cs, empty ones at the front aside, joined by blank lines. */
  ghost predicate IsCollected(cs: seq<Command>, text: string) {
    exists k: nat :: BlankUpTo(cs, k) && text == JoinedBy(Messages(cs[k..]))
  }

  /** cmd is what a dispatch of the lane hands to a worker: the oldest command, marked active, in
      collect mode with the texts of all the others, if they have any. */
  ghost predicate IsDispatched(l: Lane, cmd: Command)
    requires l.pending != []
  {
    var head, rest := l.pending[0], l.pending[1..];
    && cmd == head.(state := Active, params := cmd.params)
    && if head.mode == Collect && !AllBlank(rest)
       then exists text :: IsCollected(rest, text) && cmd.params == head.params["collectedMessages" := text]
       else cmd.params == head.params
  }

  lemma DispatchedIs(l: Lane)
    requires l.pending != []
    ensures IsDispatched(l, DispatchedCommand(l))
  {
    hide Steering;
    var rest := l.pending[1..];
    var k := BlankOrNot(rest);
    if k < |rest| {
      SteeringIs(rest, k);
      assert rest[k] in rest;
      assert IsCollected(rest, Steering(rest));
    } else {
      BlankSteersNothing(rest);
      BlankSteersNothing([]);
    }
  }

  /** A lane is due: nothing active, and its oldest command has waited for the debounce time. */
  predicate IsDue(l: Lane, now: int) {
    l.active == Nothing && l.pending != [] && HasWaited(l.pending[0].enqueuedAt, l.debounceMs, now)
  }

  /** So many whole milliseconds, cut off toward zero, have passed. */
  predicate HasWaited(since: int, ms: int, now: int) {
    if ms >= 1 then now - since >= ms * 1_000_000 else now - since > (ms - 1) * 1_000_000
  }

  lemma DueIff(l: Lane, now: int)
    ensures Ready(l, now) <==> IsDue(l, now)
  {
  }

  /** What the dispatch leaves of the lane. */
  lemma DispatchLeaves(l: Lane)
    requires l.pending != []
    ensures var v, rest := DispatchedLane(l), l.pending[1..];
            && v == l.(active := Just(l.pending[0].(state := Active)), pending := v.pending)
            && v.pending == if l.pending[0].mode == Collect || (l.pending[0].mode == Followup && |rest| > 1) then []
                            else rest
  {
  }

  /** In the order of their lanes, a round hands on what due lanes dispatch, one command a lane. */
  ghost predicate IsRound(q: QueueState, keys: seq<string>, now: int, cmds: seq<Command>)
    decreases keys
  {
    if keys == [] then cmds == []
    else
      || (cmds != [] && DispatchedFrom(q, keys[0], now, cmds[0]) && IsRound(q, keys[1..], now, cmds[1..]))
      || IsRound(q, keys[1..], now, cmds)
  }

  ghost predicate DispatchedFrom(q: QueueState, key: string, now: int, cmd: Command) {
    key in q.lanes && IsDue(q.lanes[key], now) && IsDispatched(q.lanes[key], cmd)
  }

  lemma {:induction false} RoundOfNothing(q: QueueState, keys: seq<string>, now: int)
    ensures IsRound(q, keys, now, [])
    decreases keys
  {
    if keys != [] {
      RoundOfNothing(q, keys[1..], now);
    }
  }

  lemma {:induction false} RoundOfSame(q: QueueState, v: QueueState, keys: seq<string>, now: int, cmds: seq<Command>)
    requires IsRound(v, keys, now, cmds)
    requires forall k :: k in keys ==> (k in v.lanes <==> k in q.lanes) && (k in q.lanes ==> v.lanes[k] == q.lanes[k])
    ensures IsRound(q, keys, now, cmds)
    decreases keys
  {
    if keys != [] {
      assert keys[0] in keys && forall k :: k in keys[1..] ==> k in keys;
      hide IsDue, IsDispatched;
      if cmds != [] && DispatchedFrom(v, keys[0], now, cmds[0]) && IsRound(v, keys[1..], now, cmds[1..]) {
        RoundOfSame(q, v, keys[1..], now, cmds[1..]);
      } else {
        RoundOfSame(q, v, keys[1..], now, cmds);
      }
    }
  }

  /** Whatever a round hands on was due when the round began, and is what its lane dispatches. */
  lemma {:induction false} RoundIs(q: QueueState, keys: seq<string>, now: int)
    requires Distinct(keys)
    ensures IsRound(q, keys, now, DispatchKeys(q, keys, now).1)
    decreases keys
  {
    hide Ready, IsDue, IsDispatched, DispatchedLane, DispatchedCommand;
    if keys == [] {
    } else if Stops(q, keys[0]) {
      RoundOfNothing(q, keys, now);
    } else {
      var key := keys[0];
      var v := DispatchOne(q, key, now).0;
      RoundIs(v, keys[1..], now);
      var more := DispatchKeys(v, keys[1..], now).1;
      assert forall k :: k in keys[1..] ==> k != key by { HeadNotBehind(keys); }
      RoundOfSame(q, v, keys[1..], now, more);
      if Dispatches(q, key, now) {
        DueIff(q.lanes[key], now);
        assert q.lanes[key].pending != [] by { DueHasPending(q.lanes[key], now); }
        DispatchedIs(q.lanes[key]);
        Cons(DispatchedCommand(q.lanes[key]), more);
      } else {
        assert [] + more == more;
      }
    }
  }

  lemma DueHasPending(l: Lane, now: int)
    requires IsDue(l, now)
    ensures l.pending != []
  {
  }

  lemma HeadNotBehind(keys: seq<string>)
    requires Distinct(keys) && keys != []
    ensures forall k :: k in keys[1..] ==> k != keys[0]
  {
  }

  // ---------------------------------------------------------------------
  // Submission
  // ---------------------------------------------------------------------

  /** The mode that counts: the command's own, or, for the default, the session's. */
  function ModeOf(l: Lane, cmd: Command): QueueMode {
    if cmd.mode == Collect then l.mode else cmd.mode
  }

  /** What of the queue stays when the command comes in: interrupting an active command leaves at most
      the newest. */
  function Standing(l: Lane, cmd: Command): seq<Command> {
    if ModeOf(l, cmd) == Interrupt && l.active != Nothing && l.pending != [] then [l.pending[|l.pending| - 1]]
    else l.pending
  }

  function Arrived(l: Lane, cmd: Command): Command {
    cmd.(mode := ModeOf(l, cmd))
  }

  /** What the drop policy makes of a queue beyond its cap: the oldest go, or the newest, or those
      behind the head are merged into it. */
  ghost predicate IsCutDown(drop: DropPolicy, over: nat, queued: seq<Command>, left: seq<Command>,
                            dropped: seq<string>)
    requires over < |queued|
  {
    match drop
    case DropOldest => left == queued[over..] && dropped == Ids(queued[..over])
    case Reject =>
      && left == queued[..|queued| - over] && |dropped| == over
      && forall i :: 0 <= i < over ==> dropped[i] == queued[|queued| - 1 - i].id
    case Summarize =>
      && left != [] && left[0] == queued[0].(message := left[0].message)
      && left[1..] == queued[over + 1..] && dropped == Ids(queued[1..over + 1])
  }

  lemma OverflowCutsDown(drop: DropPolicy, cap: int, queued: seq<Command>)
    requires 1 <= cap < |queued|
    ensures var r := Overflow(drop, cap, queued); IsCutDown(drop, |queued| - cap, queued, r.0, r.1)
  {
    hide Overflow, AbsorbAll, Messages;
    match drop
    case DropOldest => DropOldestKeepsNewest(cap, queued);
    case Reject => RejectKeepsOldest(cap, queued);
    case Summarize =>
      var over := |queued| - cap;
      SummarizeAbsorbs(cap, queued, over);
      SummarizeDrops(cap, queued, over);
      var head := queued[0].(message := AbsorbAll(queued[0].message, Messages(queued[1..over + 1])));
      Cons(head, queued[over + 1..]);
      var r := Overflow(drop, cap, queued);
      assert r.0 == [head] + queued[over + 1..];
      assert r.0 != [] && r.0[0] == head;
      assert r.0[1..] == queued[over + 1..];
      assert r.1 == Ids(queued[1..over + 1]);
  }

  /** How a submission changes its lane: an interrupting one frees it; the command comes last; a
      steering one to a lane with an active command is queued whatever the cap; and any other beyond
      the cap cuts the queue down to it. */
  lemma SubmitIs(l: Lane, cmd: Command)
    requires l.cap >= 1
    ensures var (v, dropped), mode := SubmitLane(l, cmd), ModeOf(l, cmd);
            var queued := Standing(l, cmd) + [Arrived(l, cmd)];
            && v == l.(active := if mode == Interrupt then Nothing else l.active, pending := v.pending)
            && if |queued| <= l.cap || ((mode == Steer || mode == SteerBacklog) && l.active != Nothing)
               then v.pending == queued && dropped == []
               else IsCutDown(l.drop, |queued| - l.cap, queued, v.pending, dropped)
  {
    hide IsCutDown, Overflow;
    var queued := Standing(l, cmd) + [Arrived(l, cmd)];
    StandingIs(l, cmd);
    if |queued| > l.cap {
      OverflowCutsDown(l.drop, l.cap, queued);
    } else {
      NoOverflow(l.drop, l.cap, queued);
    }
  }

  lemma StandingIs(l: Lane, cmd: Command)
    ensures (if Interrupts(l, cmd.mode) then Interrupted(l) else l) ==
            l.(active := if ModeOf(l, cmd) == Interrupt then Nothing else l.active, pending := Standing(l, cmd))
  {
  }

  lemma NoOverflow(drop: DropPolicy, cap: int, queued: seq<Command>)
    requires |queued| <= cap
    ensures Overflow(drop, cap, queued) == (queued, [])
  {
  }

  /** No lane but this one is different. */
  ghost predicate OthersStay(q: QueueState, v: QueueState, key: string) {
    forall k :: k != key ==> (k in v.lanes <==> k in q.lanes) && (k in q.lanes ==> v.lanes[k] == q.lanes[k])
  }

  /** Aborting a session that is there frees its lane, leaves of its queue only the newest command and
      succeeds if a command was active, whose id is then forgotten, and no other. */
  lemma AbortIs(q: QueueState, key: string)
    ensures var (v, aborted) := AfterAbort(q, key);
            && OthersStay(q, v, key) && v == q.(lanes := v.lanes, owner := v.owner)
            && (aborted <==> key in q.lanes && q.lanes[key].active != Nothing)
            && (key in v.lanes <==> key in q.lanes)
            && (key in q.lanes ==>
                  var l, was := v.lanes[key], q.lanes[key];
                  && l == was.(active := Nothing, pending := l.pending)
                  && l.pending == if was.pending == [] then [] else [was.pending[|was.pending| - 1]])
            && (forall id :: id in v.owner <==> id in q.owner && !(aborted && id == q.lanes[key].active.value.id))
            && (forall id :: id in v.owner ==> v.owner[id] == q.owner[id])
  {
  }

  /** Reconfiguring a session sets its mode and every limit that is given, and nothing else of the
      session or of any other; a session that is not there yet starts from the queue's defaults. */
  lemma ConfigureIs(q: QueueState, key: string, mode: QueueMode, debounceMs: int, cap: int, drop: Maybe<DropPolicy>)
    ensures var v := AfterConfigure(q, key, mode, debounceMs, cap, drop);
            && key in v.lanes && v == q.(lanes := v.lanes)
            && OthersStay(q, v, key)
            && var l := v.lanes[key];
               l.mode == mode && (debounceMs >= 0 ==> l.debounceMs == debounceMs) && (cap >= 0 ==> l.cap == cap)
               && (drop != Nothing ==> Just(l.drop) == drop)
               && if key in q.lanes then
                    var was := q.lanes[key];
                    && l.pending == was.pending && l.active == was.active && l.sessionKey == was.sessionKey
                    && (debounceMs < 0 ==> l.debounceMs == was.debounceMs) && (cap < 0 ==> l.cap == was.cap)
                    && (drop == Nothing ==> l.drop == was.drop)
                  else
                    && l.pending == [] && l.active == Nothing && l.sessionKey == key
                    && (debounceMs < 0 ==> l.debounceMs == q.config.debounceMs)
                    && (cap < 0 ==> l.cap == q.config.cap) && (drop == Nothing ==> l.drop == q.config.drop)
  {
  }
}
