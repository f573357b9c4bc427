/** How long a session's queue can get. */
module QueueBounds {
  import opened Seqs
  import opened QueueText
  import opened SessionLanes
  import opened CommandQueues
  import opened QueueRuns

  // ---------------------------------------------------------------------
  // One submission, one dispatch
  // ---------------------------------------------------------------------

  /** After a submission the lane is within its cap exactly when the command did not steer past the
      overflow check, or there was room for it. */
  lemma WithinCapIff(l: Lane, cmd: Command)
    requires l.cap >= 1
    ensures |SubmitLane(l, cmd).0.pending| <= l.cap <==> !Steers(l, cmd.mode) || |l.pending| < l.cap
  {
    hide Overflow;
    var moded := cmd.(mode := EffectiveMode(l, cmd.mode));
    var base := if Interrupts(l, cmd.mode) then Interrupted(l) else l;
    if !Steers(l, cmd.mode) {
      OverflowSize(l.drop, l.cap, base.pending + [moded]);
    }
  }

  /** A dispatch leaves commands pending exactly when there was more than the head, the head's mode
      is not collect, and in followup mode just one other: two or more others are drained, a single
      one is not. It then leaves all the others. */
  lemma DispatchLeavesIff(l: Lane)
    requires l.pending != []
    ensures DispatchedLane(l).pending != [] <==>
            |l.pending| > 1 && l.pending[0].mode != Collect && (l.pending[0].mode == Followup ==> |l.pending| == 2)
    ensures DispatchedLane(l).pending == [] || DispatchedLane(l).pending == l.pending[1..]
  {
    if |l.pending| > 1 {
      assert l.pending[1..] != [];
    }
  }

  // ---------------------------------------------------------------------
  // Whole runs
  // ---------------------------------------------------------------------

  /** How many submissions to the session steered past the overflow check. */
  function Steered(config: QueueConfig, actions: seq<Action>, s: string): nat {
    if actions == [] then 0
    else
      var n := |actions| - 1;
      Steered(config, actions[..n], s) + (if SteersPast(Run(Start(config), actions[..n]), actions[n], s) then 1 else 0)
  }

  predicate SteersPast(w: World, a: Action, s: string) {
    a.DoSubmit? && a.cmd.id !in w.issued && a.cmd.sessionKey == s && Steers(LaneAt(w.q, s), a.cmd.mode)
  }

  /** No configuration of the run, of the manager or of a session, sets a cap above this. */
  ghost predicate CapsWithin(config: QueueConfig, actions: seq<Action>, cap: int) {
    && config.cap <= cap
    && forall a :: a in actions ==>
         (a.DoConfigure? ==> a.cap <= cap) && (a.DoSetConfig? ==> a.config.cap <= cap)
  }

  /** One turn of the loop never lengthens a queue, and a lane whose cap is not positive gets just
      one turn. */
  lemma {:induction false} OverflowAtMost(drop: DropPolicy, cap: int, pending: seq<Command>)
    requires pending != []
    ensures |Overflow(drop, cap, pending).0| <= if cap >= 1 then cap else if |pending| == 1 then 1 else |pending| - 1
  {
    if cap >= 1 {
      OverflowSize(drop, cap, pending);
    }
  }

  ghost predicate BoundedAt(w: World, cap: int, steered: nat, s: string) {
    && |PendingOf(w.q, s)| <= cap + steered
    && LaneAt(w.q, s).cap <= cap
  }

  lemma SubmitBounded(w: World, cmd: Command, cap: int, steered: nat, s: string)
    requires cap >= 1 && BoundedAt(w, cap, steered, s) && cmd.id !in w.issued
    ensures BoundedAt(SubmitStep(w, cmd), cap, steered + (if SteersPast(w, DoSubmit(cmd), s) then 1 else 0), s)
  {
    hide Overflow, Erased, Cleared;
    if s == cmd.sessionKey {
      var l := LaneAt(w.q, s);
      var base := if Interrupts(l, cmd.mode) then Interrupted(l) else l;
      OverflowAtMost(l.drop, l.cap, base.pending + [cmd.(mode := EffectiveMode(l, cmd.mode))]);
    }
  }

  lemma DispatchOneBounded(w: World, key: string, now: int, cap: int, steered: nat, s: string)
    requires cap >= 1 && BoundedAt(w, cap, steered, s)
    ensures BoundedAt(DispatchOneStep(w, key, now), cap, steered, s)
    ensures DispatchOneStep(w, key, now).q.config == w.q.config
  {
  }

  lemma {:induction false} DispatchBounded(w: World, keys: seq<string>, now: int, cap: int, steered: nat, s: string)
    requires cap >= 1 && BoundedAt(w, cap, steered, s)
    ensures BoundedAt(DispatchKeysStep(w, keys, now), cap, steered, s)
    ensures DispatchKeysStep(w, keys, now).q.config == w.q.config
    decreases keys
  {
    hide BoundedAt, DispatchOneStep;
    if keys != [] && !Stops(w.q, keys[0]) {
      DispatchOneBounded(w, keys[0], now, cap, steered, s);
      DispatchBounded(DispatchOneStep(w, keys[0], now), keys[1..], now, cap, steered, s);
    }
  }

  lemma StepBounded(w: World, a: Action, cap: int, steered: nat, s: string)
    requires cap >= 1 && BoundedAt(w, cap, steered, s) && w.q.config.cap <= cap
    requires (a.DoConfigure? ==> a.cap <= cap) && (a.DoSetConfig? ==> a.config.cap <= cap)
    ensures BoundedAt(Step(w, a), cap, steered + (if SteersPast(w, a, s) then 1 else 0), s)
    ensures Step(w, a).q.config.cap <= cap
  {
    hide BoundedAt, SubmitStep, DispatchKeysStep, CancelStep, AbortStep, FinishStep, WithoutIdle, AfterConfigure;
    match a
    case DoSubmit(cmd) =>
      if cmd.id !in w.issued {
        SubmitBounded(w, cmd, cap, steered, s);
        SubmitKeepsConfig(w, cmd);
      }
    case DoDispatch(keys, now) =>
      DispatchBounded(w, keys, now, cap, steered, s);
      WithoutIdleBounded(DispatchKeysStep(w, keys, now), cap, steered, s);
    case DoCancel(id) => CancelBounded(w, id, cap, steered, s);
    case DoAbort(key) => AbortBounded(w, key, cap, steered, s);
    case DoConfigure(_, _, _, _, _) => ConfigureBounded(w, a, cap, steered, s);
    case DoSetConfig(config) => SetConfigBounded(w, config, cap, steered, s);
    case DoFinish(i) =>
      if i < |w.workers| {
        FinishBounded(w, i, cap, steered, s);
      }
  }

  lemma WithoutIdleBounded(w: World, cap: int, steered: nat, s: string)
    requires BoundedAt(w, cap, steered, s) && w.q.config.cap <= cap
    ensures BoundedAt(w.(q := WithoutIdle(w.q)), cap, steered, s) && WithoutIdle(w.q).config == w.q.config
  {
  }

  lemma CancelBounded(w: World, id: string, cap: int, steered: nat, s: string)
    requires BoundedAt(w, cap, steered, s)
    ensures BoundedAt(CancelStep(w, id), cap, steered, s) && CancelStep(w, id).q.config == w.q.config
  {
  }

  lemma AbortBounded(w: World, key: string, cap: int, steered: nat, s: string)
    requires BoundedAt(w, cap, steered, s)
    ensures BoundedAt(AbortStep(w, key), cap, steered, s) && AbortStep(w, key).q.config == w.q.config
  {
    hide Cleared;
  }

  lemma ConfigureBounded(w: World, a: Action, cap: int, steered: nat, s: string)
    requires BoundedAt(w, cap, steered, s) && a.DoConfigure? && a.cap <= cap
    ensures BoundedAt(Step(w, a), cap, steered, s) && Step(w, a).q.config == w.q.config
  {
  }

  lemma SetConfigBounded(w: World, config: QueueConfig, cap: int, steered: nat, s: string)
    requires BoundedAt(w, cap, steered, s) && config.cap <= cap
    ensures BoundedAt(w.(q := w.q.(config := config)), cap, steered, s)
  {
  }

  lemma FinishBounded(w: World, i: nat, cap: int, steered: nat, s: string)
    requires BoundedAt(w, cap, steered, s) && i < |w.workers|
    ensures BoundedAt(FinishStep(w, i), cap, steered, s) && FinishStep(w, i).q.config == w.q.config
  {
  }

  lemma SubmitKeepsConfig(w: World, cmd: Command)
    ensures SubmitStep(w, cmd).q.config == w.q.config
  {
  }

  /** Over any run a session never has more pending than the largest cap that was configured, plus
      the submissions that steered past it. */
  lemma {:induction false} QueueBounded(config: QueueConfig, actions: seq<Action>, cap: int, s: string)
    requires cap >= 1 && CapsWithin(config, actions, cap)
    ensures BoundedAt(Run(Start(config), actions), cap, Steered(config, actions, s), s)
    ensures Run(Start(config), actions).q.config.cap <= cap
  {
    hide BoundedAt, Step, SteersPast;
    if actions == [] {
      StartBounded(config, cap, s);
    } else {
      var n := |actions| - 1;
      assert forall a :: a in actions[..n] ==> a in actions;
      assert actions[n] in actions;
      QueueBounded(config, actions[..n], cap, s);
      StepBounded(Run(Start(config), actions[..n]), actions[n], cap, Steered(config, actions[..n], s), s);
    }
  }

  lemma StartBounded(config: QueueConfig, cap: int, s: string)
    requires cap >= 1 && config.cap <= cap
    ensures BoundedAt(Start(config), cap, 0, s)
  {
  }
}
