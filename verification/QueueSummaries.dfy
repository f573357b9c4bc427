/** Over whole runs of the queue, every merged command reads as the messages merged into it. The
    ledgers say which commands were dropped; the head's text is the rendering of its own text and of
    the texts of some of those, in the order in which they were submitted. */
module QueueSummaries {
  import opened Seqs
  import opened QueueText
  import opened SessionLanes
  import opened CommandQueues
  import opened Subsequences
  import opened QueueRuns
  import opened QueueSafety

  /** The texts submitted so far, by command id. */
  type Texts = map<string, string>

  function TextsAfter(w: World, texts: Texts, a: Action): Texts {
    if a.DoSubmit? && a.cmd.id !in w.issued then texts[a.cmd.id := a.cmd.message] else texts
  }

  function TextsOf(config: QueueConfig, actions: seq<Action>): Texts {
    if actions == [] then map[]
    else
      var n := |actions| - 1;
      TextsAfter(Run(Start(config), actions[..n]), TextsOf(config, actions[..n]), actions[n])
  }

  function Pick(texts: Texts, ids: seq<string>): seq<string>
    requires forall id :: id in ids ==> id in texts
  {
    seq(|ids|, i requires 0 <= i < |ids| => texts[ids[i]])
  }

  /** The head reads as the texts submitted under `ids`, its own id first; the ids merged into it
      are among those dropped, and with the other pending ids they keep the order of submission. */
  ghost predicate HeadReads(texts: Texts, submitted: seq<string>, dropped: multiset<string>, p: seq<Command>,
                            ids: seq<string>)
    requires p != []
  {
    && ids != [] && ids[0] == p[0].id
    && (forall id :: id in ids ==> id in texts)
    && (forall i :: 1 <= i < |ids| ==> ids[i] in dropped)
    && Subsequence(ids + Ids(p[1..]), submitted)
    && p[0].message == Rendered(Pick(texts, ids))
  }

  ghost predicate TailRaw(texts: Texts, p: seq<Command>) {
    forall i :: 1 <= i < |p| ==> p[i].id in texts && p[i].message == texts[p[i].id]
  }

  /** The pending commands of a session: the head reads as what was merged into it, the others as
      they were submitted. */
  ghost predicate Readable(texts: Texts, submitted: seq<string>, dropped: multiset<string>, p: seq<Command>) {
    p == [] || (TailRaw(texts, p) && exists ids :: HeadReads(texts, submitted, dropped, p, ids))
  }

  /** No submitted text starts with the marker. */
  ghost predicate Raw(texts: Texts) {
    forall id :: id in texts ==> !IsSummary(texts[id])
  }

  // ---------------------------------------------------------------------
  // What keeps a queue readable
  // ---------------------------------------------------------------------

  lemma NewHeadReads(texts: Texts, submitted: seq<string>, dropped: multiset<string>, p: seq<Command>, k: nat)
    requires Readable(texts, submitted, dropped, p) && 1 <= k < |p|
    ensures Readable(texts, submitted, dropped, p[k..])
  {
    var q := p[k..];
    var ids :| HeadReads(texts, submitted, dropped, p, ids);
    var own, tail := [q[0].id], Ids(p[1..]);
    assert Pick(texts, own) == [q[0].message];
    IdsFrom(p, k);
    SuffixIsSubsequence(ids + tail, |ids| + k - 1);
    assert (ids + tail)[|ids| + k - 1..] == tail[k - 1..];
    SubsequenceTrans(own + Ids(q[1..]), ids + tail, submitted);
    assert HeadReads(texts, submitted, dropped, q, own);
    TailRawFrom(texts, p, k);
  }

  lemma IdsFrom(p: seq<Command>, k: nat)
    requires 1 <= k < |p|
    ensures [p[k].id] + Ids(p[k..][1..]) == Ids(p[1..])[k - 1..]
  {
    var a, b := [p[k].id] + Ids(p[k..][1..]), Ids(p[1..])[k - 1..];
    assert |a| == |b|;
    forall i | 0 <= i < |a| ensures a[i] == b[i] {
      assert b[i] == p[1..][k - 1 + i].id == p[k + i].id;
      if i > 0 {
        assert a[i] == p[k..][1..][i - 1].id;
      }
    }
  }

  lemma TailRawFrom(texts: Texts, p: seq<Command>, k: nat)
    requires TailRaw(texts, p) && k <= |p|
    ensures TailRaw(texts, p[k..])
  {
    forall i | 1 <= i < |p[k..]| ensures p[k..][i].id in texts && p[k..][i].message == texts[p[k..][i].id] {
      assert p[k..][i] == p[k + i];
    }
  }

  lemma SuffixIsSubsequence<T>(a: seq<T>, k: nat)
    requires k <= |a|
    ensures Subsequence(a[k..], a)
  {
    CutIsSubsequence(a, 0, k);
    assert a[..0] + a[k..] == a[k..];
  }

  lemma SuffixReadable(texts: Texts, submitted: seq<string>, dropped: multiset<string>, p: seq<Command>, k: nat)
    requires Readable(texts, submitted, dropped, p) && k <= |p|
    ensures Readable(texts, submitted, dropped, p[k..])
  {
    hide HeadReads, TailRaw;
    if k == 0 {
      Whole(p);
    } else if k < |p| {
      NewHeadReads(texts, submitted, dropped, p, k);
    }
  }

  /** Taking out a command behind the head. */
  lemma CutReadable(texts: Texts, submitted: seq<string>, dropped: multiset<string>, p: seq<Command>, k: nat)
    requires Readable(texts, submitted, dropped, p) && 1 <= k < |p|
    ensures Readable(texts, submitted, dropped, p[..k] + p[k + 1..])
  {
    hide Rendered, Pick;
    var q := p[..k] + p[k + 1..];
    var ids :| HeadReads(texts, submitted, dropped, p, ids);
    var all := ids + Ids(p[1..]);
    assert q[1..] == p[1..][..k - 1] + p[1..][k..];
    IdsCut(p[1..], k - 1, k);
    assert all[..|ids| + k - 1] == ids + Ids(p[1..])[..k - 1] && all[|ids| + k..] == Ids(p[1..])[k..];
    Assoc(ids, Ids(p[1..])[..k - 1], Ids(p[1..])[k..]);
    CutIsSubsequence(all, |ids| + k - 1, |ids| + k);
    SubsequenceTrans(ids + Ids(q[1..]), all, submitted);
    assert HeadReads(texts, submitted, dropped, q, ids);
    forall i | 1 <= i < |q| ensures q[i].id in texts && q[i].message == texts[q[i].id] {
      assert q[i] == if i < k then p[i] else p[i + 1];
    }
  }

  lemma WithoutReadable(texts: Texts, submitted: seq<string>, dropped: multiset<string>, p: seq<Command>, id: string)
    requires Readable(texts, submitted, dropped, p)
    ensures Readable(texts, submitted, dropped, Without(p, id))
  {
    hide Readable;
    var n := PlaceOf(p, id);
    if n < |p| {
      if n == 0 {
        assert p[..0] + p[1..] == p[1..];
        SuffixReadable(texts, submitted, dropped, p, 1);
      } else {
        CutReadable(texts, submitted, dropped, p, n);
      }
    }
  }

  lemma InterruptedReadable(texts: Texts, submitted: seq<string>, dropped: multiset<string>, l: Lane)
    requires Readable(texts, submitted, dropped, l.pending)
    ensures Readable(texts, submitted, dropped, Interrupted(l).pending)
  {
    if |l.pending| > 1 {
      SuffixReadable(texts, submitted, dropped, l.pending, |l.pending| - 1);
    }
  }

  /** Queueing a new command. */
  lemma EnqueuedReadable(texts: Texts, submitted: seq<string>, dropped: multiset<string>, p: seq<Command>, cmd: Command)
    requires Readable(texts, submitted, dropped, p) && cmd.id !in texts
    ensures Readable(texts[cmd.id := cmd.message], submitted + [cmd.id], dropped, p + [cmd])
  {
    var more, q := texts[cmd.id := cmd.message], p + [cmd];
    if p == [] {
      var own := [cmd.id];
      assert Pick(more, own) == [cmd.message] && Ids(q[1..]) == [];
      assert own + Ids(q[1..]) == own;
      SubsequenceFromEnd(submitted, cmd.id);
      assert HeadReads(more, submitted + [cmd.id], dropped, q, own);
    } else {
      var ids :| HeadReads(texts, submitted, dropped, p, ids);
      assert Pick(more, ids) == Pick(texts, ids);
      assert Ids(q[1..]) == Ids(p[1..]) + [cmd.id];
      Assoc(ids, Ids(p[1..]), [cmd.id]);
      SubsequenceSnoc(ids + Ids(p[1..]), submitted, cmd.id);
      assert HeadReads(more, submitted + [cmd.id], dropped, q, ids);
    }
  }

  lemma SubsequenceFromEnd<T>(a: seq<T>, x: T)
    ensures Subsequence([x], a + [x])
  {
    SuffixIsSubsequence(a + [x], |a|);
    assert (a + [x])[|a|..] == [x];
  }

  /** Merging the second command into the head. */
  lemma MergedReadable(texts: Texts, submitted: seq<string>, dropped: multiset<string>, p: seq<Command>)
    requires Readable(texts, submitted, dropped, p) && |p| >= 2 && Raw(texts) && |submitted| <= MAX_INT
    ensures Readable(texts, submitted, dropped + multiset{p[1].id}, SummarizeFront(p))
  {
    hide Rendered, Absorb;
    var ids :| HeadReads(texts, submitted, dropped, p, ids);
    var q, more := SummarizeFront(p), ids + [p[1].id];
    var parts := Pick(texts, ids);
    SubsequenceShorter(ids + Ids(p[1..]), submitted);
    AbsorbRendered(parts, p[1].message);
    assert Pick(texts, more) == parts + [p[1].message];
    assert Ids(p[1..]) == [p[1].id] + Ids(q[1..]);
    Assoc(ids, [p[1].id], Ids(q[1..]));
    assert HeadReads(texts, submitted, dropped + multiset{p[1].id}, q, more);
  }

  lemma SubsequenceShorter<T>(a: seq<T>, b: seq<T>)
    requires Subsequence(a, b)
    ensures |a| <= |b|
  {
    var at :| Picks(a, b, at);
    IncreasingShort(at, |b|);
  }

  lemma {:induction false} IncreasingShort(at: seq<nat>, n: nat)
    requires forall i :: 0 <= i < |at| ==> at[i] < n
    requires forall i, j :: 0 <= i < j < |at| ==> at[i] < at[j]
    ensures |at| <= n
  {
    if at != [] {
      var k := |at| - 1;
      assert at[k] < n;
      forall i | 0 <= i < k ensures at[..k][i] < n - 1 {
        assert at[i] < at[k];
      }
      IncreasingShort(at[..k], n - 1);
    }
  }

  lemma MoreDropped(texts: Texts, submitted: seq<string>, dropped: multiset<string>, more: multiset<string>,
                    p: seq<Command>)
    requires Readable(texts, submitted, dropped, p)
    ensures Readable(texts, submitted, dropped + more, p)
  {
    if p != [] {
      var ids :| HeadReads(texts, submitted, dropped, p, ids);
      assert HeadReads(texts, submitted, dropped + more, p, ids);
    }
  }

  lemma OverflowOnceReadable(texts: Texts, submitted: seq<string>, dropped: multiset<string>, drop: DropPolicy,
                             p: seq<Command>)
    requires Readable(texts, submitted, dropped, p) && p != [] && Raw(texts) && |submitted| <= MAX_INT
    ensures var r := OverflowOnce(drop, p); Readable(texts, submitted, dropped + multiset(r.1), r.0)
  {
    hide Readable, SummarizeFront;
    var n := |p|;
    match drop
    case Summarize =>
      if n >= 2 {
        MergedReadable(texts, submitted, dropped, p);
        assert multiset([p[1].id]) == multiset{p[1].id};
      } else {
        MoreDropped(texts, submitted, dropped, multiset([]), p);
      }
    case DropOldest =>
      SuffixReadable(texts, submitted, dropped, p, 1);
      MoreDropped(texts, submitted, dropped, multiset([p[0].id]), p[1..]);
    case Reject =>
      assert p[..n - 1] + p[n..] == p[..n - 1];
      if n > 1 {
        CutReadable(texts, submitted, dropped, p, n - 1);
      } else {
        NoneReadable(texts, submitted, dropped);
      }
      MoreDropped(texts, submitted, dropped, multiset([p[n - 1].id]), p[..n - 1]);
  }

  lemma NoneReadable(texts: Texts, submitted: seq<string>, dropped: multiset<string>)
    ensures Readable(texts, submitted, dropped, [])
  {
  }

  lemma OverflowOnceShrinks(drop: DropPolicy, p: seq<Command>)
    requires |p| >= 2
    ensures |OverflowOnce(drop, p).0| == |p| - 1
  {
  }

  lemma {:induction false} OverflowReadable(texts: Texts, submitted: seq<string>, dropped: multiset<string>,
                                            drop: DropPolicy, cap: int, p: seq<Command>)
    requires Readable(texts, submitted, dropped, p) && p != [] && Raw(texts) && |submitted| <= MAX_INT
    ensures var r := Overflow(drop, cap, p); Readable(texts, submitted, dropped + multiset(r.1), r.0)
    decreases |p|
  {
    hide Readable, Raw, OverflowOnce;
    if |p| <= cap {
      MoreDropped(texts, submitted, dropped, multiset([]), p);
      assert Overflow(drop, cap, p) == (p, []);
    } else {
      OverflowOnceReadable(texts, submitted, dropped, drop, p);
      if cap > 0 {
        var once := OverflowOnce(drop, p);
        var more := Overflow(drop, cap, once.0);
        OverflowOnceShrinks(drop, p);
        OverflowReadable(texts, submitted, dropped + multiset(once.1), drop, cap, once.0);
        assert dropped + multiset(once.1) + multiset(more.1) == dropped + multiset(once.1 + more.1);
      }
    }
  }

  lemma SubmitReadable(texts: Texts, submitted: seq<string>, dropped: multiset<string>, l: Lane, cmd: Command)
    requires Readable(texts, submitted, dropped, l.pending) && cmd.id !in texts
    requires Raw(texts[cmd.id := cmd.message]) && |submitted| < MAX_INT
    ensures var r := SubmitLane(l, cmd);
            Readable(texts[cmd.id := cmd.message], submitted + [cmd.id], dropped + multiset(r.1), r.0.pending)
  {
    hide Readable, Overflow, Raw;
    var moded := cmd.(mode := EffectiveMode(l, cmd.mode));
    var base := if Interrupts(l, cmd.mode) then Interrupted(l) else l;
    InterruptedReadable(texts, submitted, dropped, l);
    EnqueuedReadable(texts, submitted, dropped, base.pending, moded);
    var queued := base.pending + [moded];
    if Steers(l, cmd.mode) {
      MoreDropped(texts[cmd.id := cmd.message], submitted + [cmd.id], dropped, multiset([]), queued);
    } else {
      OverflowReadable(texts[cmd.id := cmd.message], submitted + [cmd.id], dropped, l.drop, l.cap, queued);
    }
  }

  lemma DispatchReadable(texts: Texts, submitted: seq<string>, dropped: multiset<string>, l: Lane)
    requires Readable(texts, submitted, dropped, l.pending) && l.pending != []
    ensures Readable(texts, submitted, dropped, DispatchedLane(l).pending)
  {
    hide Readable;
    NoneReadable(texts, submitted, dropped);
    SuffixReadable(texts, submitted, dropped, l.pending, 1);
  }

  // ---------------------------------------------------------------------
  // Whole runs
  // ---------------------------------------------------------------------

  ghost predicate ReadableAt(w: World, texts: Texts, s: string) {
    Readable(texts, LogOf(w, s).submitted, LogOf(w, s).dropped, PendingOf(w.q, s))
  }

  ghost predicate AllReadable(w: World, texts: Texts) {
    forall s :: ReadableAt(w, texts, s)
  }

  ghost predicate SizedTo(w: World, n: nat) {
    forall s :: |LogOf(w, s).submitted| <= n
  }

  lemma SubmitKeepsReadable(w: World, texts: Texts, cmd: Command, s: string)
    requires ReadableAt(w, texts, s) && cmd.id !in texts
    requires Raw(texts[cmd.id := cmd.message]) && |LogOf(w, s).submitted| < MAX_INT
    ensures ReadableAt(SubmitStep(w, cmd), texts[cmd.id := cmd.message], s)
  {
    hide Readable, SubmitLane, Raw, Erased, Cleared, Interrupts;
    if s == cmd.sessionKey {
      SubmitReadable(texts, LogOf(w, s).submitted, LogOf(w, s).dropped, LaneAt(w.q, s), cmd);
    } else {
      MoreTexts(texts, cmd.id, cmd.message, LogOf(w, s).submitted, LogOf(w, s).dropped, PendingOf(w.q, s));
    }
  }

  lemma MoreTexts(texts: Texts, id: string, text: string, submitted: seq<string>, dropped: multiset<string>,
                  p: seq<Command>)
    requires Readable(texts, submitted, dropped, p) && id !in texts
    ensures Readable(texts[id := text], submitted, dropped, p)
  {
    if p != [] {
      var ids :| HeadReads(texts, submitted, dropped, p, ids);
      assert Pick(texts[id := text], ids) == Pick(texts, ids);
      assert HeadReads(texts[id := text], submitted, dropped, p, ids);
    }
  }

  lemma CancelKeepsReadable(w: World, texts: Texts, id: string, s: string)
    requires ReadableAt(w, texts, s)
    ensures ReadableAt(CancelStep(w, id), texts, s)
  {
    hide Readable, Without, PlaceOf;
    if id in w.q.owner && s == w.q.owner[id] {
      WithoutReadable(texts, LogOf(w, s).submitted, LogOf(w, s).dropped, PendingOf(w.q, s), id);
    }
  }

  lemma AbortKeepsReadable(w: World, texts: Texts, key: string, s: string)
    requires ReadableAt(w, texts, s)
    ensures ReadableAt(AbortStep(w, key), texts, s)
  {
    hide Readable, Cleared;
    if s == key && key in w.q.lanes {
      InterruptedReadable(texts, LogOf(w, s).submitted, LogOf(w, s).dropped, w.q.lanes[s]);
    }
  }

  lemma DispatchOneKeepsReadable(w: World, texts: Texts, key: string, now: int, s: string)
    requires ReadableAt(w, texts, s)
    ensures ReadableAt(DispatchOneStep(w, key, now), texts, s)
  {
    hide Readable, DispatchedLane, DispatchedCommand, Drained;
    if s == key && Dispatches(w.q, key, now) {
      DispatchReadable(texts, LogOf(w, s).submitted, LogOf(w, s).dropped, w.q.lanes[s]);
    }
  }

  lemma {:induction false} DispatchKeysKeepReadable(w: World, texts: Texts, keys: seq<string>, now: int, s: string)
    requires ReadableAt(w, texts, s)
    ensures ReadableAt(DispatchKeysStep(w, keys, now), texts, s)
    decreases keys
  {
    hide ReadableAt, DispatchOneStep;
    if keys != [] && !Stops(w.q, keys[0]) {
      DispatchOneKeepsReadable(w, texts, keys[0], now, s);
      DispatchKeysKeepReadable(DispatchOneStep(w, keys[0], now), texts, keys[1..], now, s);
    }
  }

  lemma StepKeepsReadable(w: World, texts: Texts, a: Action, s: string)
    requires ReadableAt(w, texts, s) && texts.Keys == w.issued.Keys
    requires Raw(TextsAfter(w, texts, a)) && |LogOf(w, s).submitted| < MAX_INT
    ensures ReadableAt(Step(w, a), TextsAfter(w, texts, a), s)
  {
    hide ReadableAt, SubmitStep, CancelStep, AbortStep, DispatchKeysStep, FinishStep, Raw, AfterConfigure, WithoutIdle;
    match a
    case DoSubmit(cmd) =>
      if cmd.id !in w.issued {
        SubmitKeepsReadable(w, texts, cmd, s);
      }
    case DoCancel(id) => CancelKeepsReadable(w, texts, id, s);
    case DoAbort(key) => AbortKeepsReadable(w, texts, key, s);
    case DoDispatch(keys, now) =>
      DispatchKeysKeepReadable(w, texts, keys, now, s);
      QuietReadable(DispatchKeysStep(w, keys, now), texts, WithoutIdle(DispatchKeysStep(w, keys, now).q), s);
    case DoConfigure(key, mode, debounceMs, cap, drop) =>
      QuietReadable(w, texts, AfterConfigure(w.q, key, mode, debounceMs, cap, drop), s);
    case DoSetConfig(config) => QuietReadable(w, texts, w.q.(config := config), s);
    case DoFinish(i) =>
      if i < |w.workers| {
        FinishReadable(w, texts, i, s);
      }
  }

  /** Dropping idle lanes and changing settings leave every queue as it is. */
  lemma QuietReadable(w: World, texts: Texts, q: QueueState, s: string)
    requires ReadableAt(w, texts, s)
    requires q == WithoutIdle(w.q) || q == w.q.(config := q.config) ||
             exists key, mode, debounceMs, cap, drop :: q == AfterConfigure(w.q, key, mode, debounceMs, cap, drop)
    ensures ReadableAt(w.(q := q), texts, s)
  {
    hide Readable;
  }

  lemma FinishReadable(w: World, texts: Texts, i: nat, s: string)
    requires ReadableAt(w, texts, s) && i < |w.workers|
    ensures ReadableAt(FinishStep(w, i), texts, s)
  {
    hide Readable;
  }

  lemma {:induction false} DispatchSubmitted(w: World, keys: seq<string>, now: int, s: string)
    ensures LogOf(DispatchKeysStep(w, keys, now), s).submitted == LogOf(w, s).submitted
    ensures DispatchKeysStep(w, keys, now).issued == w.issued
    decreases keys
  {
    hide DispatchOne, DispatchedLane;
    if keys != [] && !Stops(w.q, keys[0]) {
      DispatchSubmitted(DispatchOneStep(w, keys[0], now), keys[1..], now, s);
    }
  }

  /** Only a submission is recorded as one, and it records its text. */
  lemma StepRecords(w: World, texts: Texts, a: Action, s: string)
    requires texts.Keys == w.issued.Keys
    ensures |LogOf(Step(w, a), s).submitted| <= |LogOf(w, s).submitted| + 1
    ensures TextsAfter(w, texts, a).Keys == Step(w, a).issued.Keys
  {
    hide SubmitLane, Erased, Interrupts, Cleared, AfterCancel, AfterAbort, DispatchKeysStep;
    if a.DoDispatch? {
      DispatchSubmitted(w, a.keys, a.now, s);
    }
  }

  ghost predicate RawSubmissions(actions: seq<Action>) {
    forall a :: a in actions && a.DoSubmit? ==> !IsSummary(a.cmd.message)
  }

  lemma {:induction false} RunReadable(config: QueueConfig, actions: seq<Action>)
    requires RawSubmissions(actions) && |actions| <= MAX_INT
    ensures var w, texts := Run(Start(config), actions), TextsOf(config, actions);
            AllReadable(w, texts) && SizedTo(w, |actions|) && texts.Keys == w.issued.Keys && Raw(texts)
  {
    hide ReadableAt, Step, LogOf;
    if actions == [] {
      StartReadable(config);
    } else {
      var n := |actions| - 1;
      var w, texts := Run(Start(config), actions[..n]), TextsOf(config, actions[..n]);
      assert forall a :: a in actions[..n] ==> a in actions;
      RunReadable(config, actions[..n]);
      assert actions[n] in actions;
      forall s ensures ReadableAt(Step(w, actions[n]), TextsAfter(w, texts, actions[n]), s)
               ensures |LogOf(Step(w, actions[n]), s).submitted| <= n + 1 {
        StepKeepsReadable(w, texts, actions[n], s);
        StepRecords(w, texts, actions[n], s);
      }
      StepRecords(w, texts, actions[n], "");
    }
  }

  lemma StartReadable(config: QueueConfig)
    ensures AllReadable(Start(config), map[]) && SizedTo(Start(config), 0)
  {
  }

  /** In every reachable state, whatever submits, cancels, aborts, dispatches and reconfigurations led
      to it: a session's first pending command reads as the texts of some submitted commands, its own
      first and the others all dropped, in the order of submission; every other pending command still
      has its own text. */
  lemma SummariesReadTheirMessages(config: QueueConfig, actions: seq<Action>, s: string)
    requires RawSubmissions(actions) && |actions| <= MAX_INT
    ensures var w := Run(Start(config), actions);
            Readable(TextsOf(config, actions), LogOf(w, s).submitted, LogOf(w, s).dropped, PendingOf(w.q, s))
  {
    hide Run, TextsOf, Readable;
    RunReadable(config, actions);
    assert ReadableAt(Run(Start(config), actions), TextsOf(config, actions), s);
  }
}
