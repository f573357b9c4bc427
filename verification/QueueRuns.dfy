/** Runs of the queue: critical sections of the manager and of its workers in any order, with a
    ledger that records what became of every command. The ledger is no part of the program; it
    only makes "in exactly one place" and "in the order submitted" sayable. This module has the
    steps and what each takes off a queue; QueueSafety has the invariants. */
module QueueRuns {
  import opened Seqs
  import opened QueueText
  import opened SessionLanes
  import opened CommandQueues
  import opened Subsequences

  /** The ledger of one session. `interrupts` counts the times an active marker was cleared by an
      interrupt or an abort, `unseen` the completions that found no active marker. */
  datatype SessionLog = SessionLog(submitted: seq<string>, activated: seq<string>,
                                   finished: multiset<string>, dropped: multiset<string>, drained: multiset<string>,
                                   cancelled: multiset<string>, interrupted: multiset<string>,
                                   interrupts: nat, unseen: nat)

  /** The manager, the commands its detached workers are running, the ledgers, and the session
      each id was issued for. */
  datatype World = World(q: QueueState, workers: seq<Command>, logs: map<string, SessionLog>,
                         issued: map<string, string>)

  datatype Action =
    | DoSubmit(cmd: Command)
    | DoCancel(id: string)
    | DoAbort(key: string)
    | DoConfigure(key: string, mode: QueueMode, debounceMs: int, cap: int, drop: Maybe<DropPolicy>)
    | DoSetConfig(config: QueueConfig)
    | DoDispatch(keys: seq<string>, now: int)
    | DoFinish(worker: nat)

  const NEW_LOG := SessionLog([], [], multiset{}, multiset{}, multiset{}, multiset{}, multiset{}, 0, 0)

  function LogOf(w: World, s: string): SessionLog {
    if s in w.logs then w.logs[s] else NEW_LOG
  }

  function PendingOf(q: QueueState, s: string): seq<Command> {
    if s in q.lanes then q.lanes[s].pending else []
  }

  function ActiveOf(q: QueueState, s: string): Maybe<Command> {
    if s in q.lanes then q.lanes[s].active else Nothing
  }

  /** The ids of the session's commands that workers are running. */
  function Flying(workers: seq<Command>, s: string): multiset<string> {
    if workers == [] then multiset{}
    else (if workers[0].sessionKey == s then multiset{workers[0].id} else multiset{}) + Flying(workers[1..], s)
  }

  function Gone(g: SessionLog): multiset<string> {
    g.finished + g.dropped + g.drained + g.cancelled + g.interrupted
  }

  lemma GoneAdds(g: SessionLog, a: multiset<string>, b: multiset<string>)
    ensures Gone(g.(dropped := g.dropped + a, interrupted := g.interrupted + b)) == Gone(g) + b + a
    ensures Gone(g.(interrupted := g.interrupted + b)) == Gone(g) + b
    ensures Gone(g.(cancelled := g.cancelled + a)) == Gone(g) + a
    ensures Gone(g.(drained := g.drained + a)) == Gone(g) + a
    ensures Gone(g.(finished := g.finished + a)) == Gone(g) + a
  {
  }

  /** The pending commands an interrupt clears: all but the most recent. */
  function Cleared(pending: seq<Command>): multiset<string> {
    if |pending| > 1 then multiset(Ids(pending[..|pending| - 1])) else multiset{}
  }

  function Start(config: QueueConfig): World {
    World(QueueState(config, map[], map[], 0), [], map[], map[])
  }

  // ---------------------------------------------------------------------
  // Steps
  // ---------------------------------------------------------------------

  function SubmitStep(w: World, cmd: Command): World {
    var s, g := cmd.sessionKey, LogOf(w, cmd.sessionKey);
    var l := LaneAt(w.q, s);
    var r := AfterSubmit(w.q, cmd);
    var hit := Interrupts(l, cmd.mode);
    World(r.0, w.workers,
          w.logs[s := g.(submitted := g.submitted + [cmd.id],
                         dropped := g.dropped + multiset(r.1),
                         interrupted := g.interrupted + (if hit then Cleared(l.pending) else multiset{}),
                         interrupts := g.interrupts + (if hit then 1 else 0))],
          w.issued[cmd.id := s])
  }

  function CancelStep(w: World, id: string): World {
    var r := AfterCancel(w.q, id);
    if !r.1 then w.(q := r.0)
    else
      var s, g := w.q.owner[id], LogOf(w, w.q.owner[id]);
      w.(q := r.0, logs := w.logs[s := g.(cancelled := g.cancelled + multiset{id})])
  }

  function AbortStep(w: World, s: string): World {
    var g := LogOf(w, s);
    w.(q := AfterAbort(w.q, s).0,
       logs := w.logs[s := g.(interrupted := g.interrupted + Cleared(PendingOf(w.q, s)),
                              interrupts := g.interrupts + (if ActiveOf(w.q, s).Just? then 1 else 0))])
  }

  function DispatchOneStep(w: World, s: string, now: int): World {
    var r := DispatchOne(w.q, s, now);
    if r.1 == [] then w.(q := r.0)
    else
      var l, g := LaneAt(w.q, s), LogOf(w, s);
      w.(q := r.0, workers := w.workers + r.1,
         logs := w.logs[s := g.(activated := g.activated + [l.pending[0].id],
                                drained := g.drained + multiset(Ids(Drained(l))))])
  }

  function DispatchKeysStep(w: World, keys: seq<string>, now: int): World
    decreases keys
  {
    if keys == [] || Stops(w.q, keys[0]) then w
    else DispatchKeysStep(DispatchOneStep(w, keys[0], now), keys[1..], now)
  }

  function FinishStep(w: World, i: nat): World
    requires i < |w.workers|
  {
    var s, g := w.workers[i].sessionKey, LogOf(w, w.workers[i].sessionKey);
    World(AfterFinish(w.q, s), w.workers[..i] + w.workers[i + 1..],
          w.logs[s := g.(finished := g.finished + multiset{w.workers[i].id},
                         unseen := g.unseen + (if ActiveOf(w.q, s).Just? then 0 else 1))],
          w.issued)
  }

  /** An action that cannot happen (a reused id, a worker that does not exist) changes nothing. */
  function Step(w: World, a: Action): World {
    match a
    case DoSubmit(cmd) => if cmd.id in w.issued then w else SubmitStep(w, cmd)
    case DoCancel(id) => CancelStep(w, id)
    case DoAbort(key) => AbortStep(w, key)
    case DoConfigure(key, mode, debounceMs, cap, drop) => w.(q := AfterConfigure(w.q, key, mode, debounceMs, cap, drop))
    case DoSetConfig(config) => w.(q := w.q.(config := config))
    case DoDispatch(keys, now) => var r := DispatchKeysStep(w, keys, now); r.(q := WithoutIdle(r.q))
    case DoFinish(i) => if i < |w.workers| then FinishStep(w, i) else w
  }

  function Run(w: World, actions: seq<Action>): World {
    if actions == [] then w else Step(Run(w, actions[..|actions| - 1]), actions[|actions| - 1])
  }

  /** The ledger-keeping dispatch is the manager's own dispatch. */
  lemma {:induction false} DispatchKeysAgree(w: World, keys: seq<string>, now: int)
    ensures var r := DispatchKeys(w.q, keys, now);
            DispatchKeysStep(w, keys, now).q == r.0 && DispatchKeysStep(w, keys, now).workers == w.workers + r.1
    decreases keys
  {
    if keys != [] && !Stops(w.q, keys[0]) {
      var one := DispatchOne(w.q, keys[0], now);
      DispatchKeysAgree(DispatchOneStep(w, keys[0], now), keys[1..], now);
      Assoc(w.workers, one.1, DispatchKeys(one.0, keys[1..], now).1);
    }
  }

  // ---------------------------------------------------------------------
  // The invariant
  // ---------------------------------------------------------------------

  /** How many of the session's workers the marker accounts for. */
  function Marker(q: QueueState, s: string): nat {
    if ActiveOf(q, s).Just? then 1 else 0
  }

  ghost predicate OwnedBy(q: QueueState, s: string) {
    forall c :: c in PendingOf(q, s) ==> c.sessionKey == s && c.id in q.owner && q.owner[c.id] == s
  }

  ghost predicate Balanced(w: World, s: string) {
    var g := LogOf(w, s);
    Books(g.submitted, g.activated, Ids(PendingOf(w.q, s)), Flying(w.workers, s), Gone(g))
  }

  /** The exact law of serial execution: the workers of a session are the one its marker stands
      for, plus one for each interrupt, less the completions that found the marker gone. */
  ghost predicate Counted(w: World, s: string) {
    var g, flying := LogOf(w, s), Flying(w.workers, s);
    && |flying| + g.unseen == Marker(w.q, s) + g.interrupts
    && (ActiveOf(w.q, s).Just? ==> |flying| >= 1 && ActiveOf(w.q, s).value.id in g.activated)
  }

  ghost predicate Issued(w: World, s: string) {
    forall id :: id in LogOf(w, s).submitted ==> id in w.issued && w.issued[id] == s
  }

  ghost predicate SessionInv(w: World, s: string) {
    Balanced(w, s) && Counted(w, s) && OwnedBy(w.q, s) && Issued(w, s)
  }

  ghost predicate Inv(w: World) {
    && w.q.activeCount == |w.workers|
    && forall s :: SessionInv(w, s)
  }

  lemma {:induction false} FlyingConcat(a: seq<Command>, b: seq<Command>, s: string)
    ensures Flying(a + b, s) == Flying(a, s) + Flying(b, s)
  {
    if a == [] {
      assert a + b == b;
    } else {
      Uncons(a, b);
      FlyingConcat(a[1..], b, s);
    }
  }

  lemma FlyingOne(c: Command, s: string)
    ensures Flying([c], s) == if c.sessionKey == s then multiset{c.id} else multiset{}
  {
    assert [c][1..] == [];
  }

  lemma FlyingWithout(workers: seq<Command>, i: nat, s: string)
    requires i < |workers|
    ensures Flying(workers, s) ==
            Flying(workers[..i] + workers[i + 1..], s) +
            (if workers[i].sessionKey == s then multiset{workers[i].id} else multiset{})
  {
    assert workers == workers[..i] + ([workers[i]] + workers[i + 1..]);
    FlyingConcat(workers[..i], [workers[i]] + workers[i + 1..], s);
    FlyingConcat([workers[i]], workers[i + 1..], s);
    FlyingConcat(workers[..i], workers[i + 1..], s);
    FlyingOne(workers[i], s);
  }

  /** A session whose lane, ledger and workers did not change, and whose ids kept their owner. */
  lemma SessionUntouched(w: World, v: World, s: string)
    requires SessionInv(w, s)
    requires PendingOf(v.q, s) == PendingOf(w.q, s) && ActiveOf(v.q, s) == ActiveOf(w.q, s)
    requires LogOf(v, s) == LogOf(w, s) && Flying(v.workers, s) == Flying(w.workers, s)
    requires forall c :: c in PendingOf(w.q, s) ==> c.id in v.q.owner && v.q.owner[c.id] == s
    requires forall id :: id in w.issued ==> id in v.issued && v.issued[id] == w.issued[id]
    ensures SessionInv(v, s)
  {
  }

  lemma IdsMember(cs: seq<Command>, id: string)
    ensures id in Ids(cs) <==> exists c :: c in cs && c.id == id
  {
    if id in Ids(cs) {
      var i :| 0 <= i < |Ids(cs)| && Ids(cs)[i] == id;
      assert cs[i] in cs;
    }
    if c :| c in cs && c.id == id {
      var i :| 0 <= i < |cs| && cs[i] == c;
      assert Ids(cs)[i] == id;
    }
  }

  /** A pending id was issued to its own session. */
  lemma PendingIssued(w: World, s: string, c: Command)
    requires SessionInv(w, s) && c in PendingOf(w.q, s)
    ensures c.id in w.issued && w.issued[c.id] == s && c.id in LogOf(w, s).submitted
  {
    var g := LogOf(w, s);
    IdsMember(PendingOf(w.q, s), c.id);
    assert c.id in multiset(Ids(PendingOf(w.q, s)));
    assert c.id in multiset(g.submitted);
  }

  // ---------------------------------------------------------------------
  // Losing pending commands
  // ---------------------------------------------------------------------

  lemma IdsCut(cs: seq<Command>, i: nat, j: nat)
    requires i <= j <= |cs|
    ensures Ids(cs[..i] + cs[j..]) == Ids(cs)[..i] + Ids(cs)[j..]
    ensures Ids(cs[i..j]) == Ids(cs)[i..j]
  {
  }

  lemma InterruptLoses(l: Lane)
    ensures Loses(Ids(l.pending), Ids(Interrupted(l).pending), Cleared(l.pending))
    ensures forall c :: c in Interrupted(l).pending ==> c in l.pending
  {
    var n := |l.pending|;
    if n > 1 {
      IdsCut(l.pending, 0, n - 1);
      LosesCut(Ids(l.pending), 0, n - 1);
      assert l.pending[..0] + l.pending[n - 1..] == l.pending[n - 1..];
      assert l.pending[0..n - 1] == l.pending[..n - 1];
    } else {
      LosesNothing(Ids(l.pending));
    }
  }

  lemma SummarizeLoses(pending: seq<Command>)
    requires |pending| >= 2
    ensures Loses(Ids(pending), Ids(SummarizeFront(pending)), multiset([pending[1].id]))
    ensures forall c :: c in SummarizeFront(pending) ==>
              exists b :: b in pending && b.id == c.id && b.sessionKey == c.sessionKey
  {
    hide Absorb;
    var ids, kept := Ids(pending), SummarizeFront(pending);
    LosesCut(ids, 1, 2);
    assert Ids(kept) == ids[..1] + ids[2..];
    assert ids[1..2] == [pending[1].id];
    forall c | c in kept ensures exists b :: b in pending && b.id == c.id && b.sessionKey == c.sessionKey {
      if c == kept[0] {
        assert pending[0] in pending;
      }
    }
  }

  lemma OverflowOnceLoses(drop: DropPolicy, pending: seq<Command>)
    requires pending != []
    ensures var r := OverflowOnce(drop, pending); Loses(Ids(pending), Ids(r.0), multiset(r.1))
    ensures forall c :: c in OverflowOnce(drop, pending).0 ==>
              exists b :: b in pending && b.id == c.id && b.sessionKey == c.sessionKey
  {
    hide Loses, SummarizeFront;
    var n := |pending|;
    var ids := Ids(pending);
    match drop
    case Summarize =>
      if n >= 2 {
        SummarizeLoses(pending);
      } else {
        LosesNothing(ids);
      }
    case DropOldest =>
      LosesCut(ids, 0, 1);
      assert Ids(pending[1..]) == ids[..0] + ids[1..];
      assert ids[0..1] == [pending[0].id];
    case Reject =>
      LosesCut(ids, n - 1, n);
      assert Ids(pending[..n - 1]) == ids[..n - 1] + ids[n..];
      assert ids[n - 1] == pending[n - 1].id;
      assert ids[n - 1..n] == [ids[n - 1]];
  }

  lemma {:induction false} OverflowLoses(drop: DropPolicy, cap: int, pending: seq<Command>)
    requires cap >= 0 || pending != []
    ensures var r := Overflow(drop, cap, pending); Loses(Ids(pending), Ids(r.0), multiset(r.1))
    ensures forall c :: c in Overflow(drop, cap, pending).0 ==>
              exists b :: b in pending && b.id == c.id && b.sessionKey == c.sessionKey
    decreases |pending|
  {
    if |pending| <= cap {
      LosesNothing(Ids(pending));
    } else {
      OverflowOnceLoses(drop, pending);
      if cap > 0 {
        var once := OverflowOnce(drop, pending);
        var more := Overflow(drop, cap, once.0);
        OverflowLoses(drop, cap, once.0);
        LosesTrans(Ids(pending), Ids(once.0), Ids(more.0), multiset(once.1), multiset(more.1));
        assert multiset(once.1 + more.1) == multiset(once.1) + multiset(more.1);
      }
    }
  }

  lemma WithoutLoses(pending: seq<Command>, id: string)
    ensures Loses(Ids(pending), Ids(Without(pending, id)),
                  if PlaceOf(pending, id) < |pending| then multiset{id} else multiset{})
    ensures forall c :: c in Without(pending, id) ==> c in pending
  {
    var n := PlaceOf(pending, id);
    if n < |pending| {
      IdsCut(pending, n, n + 1);
      LosesCut(Ids(pending), n, n + 1);
      assert Ids(pending)[n..n + 1] == [id];
    } else {
      LosesNothing(Ids(pending));
    }
  }
}
