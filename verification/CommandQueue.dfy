/** The queue manager: per-session lanes under one lock, a map from pending command ids to their
    sessions, and the count of workers in flight. Every method is one critical section, and is
    proved against a function on the manager's view; what these functions guarantee over whole runs
    is the subject of the modules QueueRuns and QueueSafety. */
module CommandQueues {
  import opened Seqs
  import opened QueueText
  import opened SessionLanes

  datatype QueueConfig = QueueConfig(maxConcurrent: int, debounceMs: int, cap: int, drop: DropPolicy,
                                     defaultMode: QueueMode)

  datatype QueueState = QueueState(config: QueueConfig, lanes: map<string, Lane>, owner: map<string, string>,
                                   activeCount: int)

  // ---------------------------------------------------------------------
  // The effect of each critical section
  // ---------------------------------------------------------------------

  function NewLane(key: string, c: QueueConfig): Lane {
    Lane(key, c.defaultMode, c.debounceMs, c.cap, c.drop, [], Nothing)
  }

  function LaneAt(q: QueueState, key: string): Lane {
    if key in q.lanes then q.lanes[key] else NewLane(key, q.config)
  }

  /** The session's mode applies to a command that did not ask for another one. */
  function EffectiveMode(l: Lane, mode: QueueMode): QueueMode {
    if mode == Collect then l.mode else mode
  }

  predicate Interrupts(l: Lane, mode: QueueMode) {
    EffectiveMode(l, mode) == Interrupt && l.active.Just?
  }

  predicate Steers(l: Lane, mode: QueueMode) {
    EffectiveMode(l, mode) in {Steer, SteerBacklog} && l.active.Just?
  }

  /** The lane after a submission and the ids its overflow policy drops; steering commands bypass
      the overflow check. */
  function SubmitLane(l: Lane, cmd: Command): (Lane, seq<string>) {
    var moded := cmd.(mode := EffectiveMode(l, cmd.mode));
    var base := if Interrupts(l, cmd.mode) then Interrupted(l) else l;
    var queued := base.pending + [moded];
    if Steers(l, cmd.mode) then (base.(pending := queued), [])
    else (base.(pending := Overflow(l.drop, l.cap, queued).0), Overflow(l.drop, l.cap, queued).1)
  }

  function Erased(owner: map<string, string>, ids: seq<string>): map<string, string> {
    map id | id in owner && id !in ids :: owner[id]
  }

  function AfterSubmit(q: QueueState, cmd: Command): (QueueState, seq<string>) {
    var r := SubmitLane(LaneAt(q, cmd.sessionKey), cmd);
    (q.(lanes := q.lanes[cmd.sessionKey := r.0], owner := Erased(q.owner[cmd.id := cmd.sessionKey], r.1)), r.1)
  }

  function AfterCancel(q: QueueState, id: string): (QueueState, bool) {
    if id !in q.owner then (q, false)
    else
      var key := q.owner[id];
      var l := LaneAt(q, key);
      (q.(lanes := q.lanes[key := l.(pending := Without(l.pending, id))], owner := q.owner - {id}),
       PlaceOf(l.pending, id) < |l.pending|)
  }

  function AfterAbort(q: QueueState, key: string): (QueueState, bool) {
    if key !in q.lanes then (q, false)
    else
      var l := q.lanes[key];
      (q.(lanes := q.lanes[key := Interrupted(l)],
          owner := if l.active.Just? then q.owner - {l.active.value.id} else q.owner),
       l.active.Just?)
  }

  /** Negative numbers and a missing policy leave the lane's setting as it is. */
  function AfterConfigure(q: QueueState, key: string, mode: QueueMode, debounceMs: int, cap: int,
                          drop: Maybe<DropPolicy>): QueueState {
    var l := LaneAt(q, key);
    q.(lanes := q.lanes[key := l.(mode := mode,
                                  debounceMs := if debounceMs >= 0 then debounceMs else l.debounceMs,
                                  cap := if cap >= 0 then cap else l.cap,
                                  drop := if drop.Just? then drop.value else l.drop)])
  }

  /** The commands a dispatch takes off the lane besides the activated one: all the rest in collect
      mode, and in followup mode when more than one is left. */
  function Drained(l: Lane): seq<Command>
    requires l.pending != []
  {
    if l.pending[0].mode == Collect || (l.pending[0].mode == Followup && |l.pending| > 2) then l.pending[1..] else []
  }

  function DispatchedLane(l: Lane): Lane
    requires l.pending != []
  {
    var a := Activated(l);
    if Drained(l) != [] then a.(pending := []) else a
  }

  /** The command handed to the worker; in collect mode it carries the drained texts. */
  function DispatchedCommand(l: Lane): Command
    requires l.pending != []
  {
    var cmd := Activated(l).active.value;
    var text := if cmd.mode == Collect then Steering(Drained(l)) else "";
    if text != "" then cmd.(params := cmd.params["collectedMessages" := text]) else cmd
  }

  /** The round ends at the first lane without an active command once the limit is reached. */
  predicate Stops(q: QueueState, key: string) {
    key in q.lanes && q.lanes[key].active.Nothing? && q.activeCount >= q.config.maxConcurrent
  }

  predicate Dispatches(q: QueueState, key: string, now: int) {
    key in q.lanes && Ready(q.lanes[key], now)
  }

  function DispatchOne(q: QueueState, key: string, now: int): (QueueState, seq<Command>) {
    if !Dispatches(q, key, now) then (q, [])
    else
      var l := q.lanes[key];
      (q.(lanes := q.lanes[key := DispatchedLane(l)], owner := q.owner - {l.pending[0].id},
          activeCount := q.activeCount + 1),
       [DispatchedCommand(l)])
  }

  function DispatchKeys(q: QueueState, keys: seq<string>, now: int): (QueueState, seq<Command>)
    decreases keys
  {
    if keys == [] || Stops(q, keys[0]) then (q, [])
    else
      var one := DispatchOne(q, keys[0], now);
      var rest := DispatchKeys(one.0, keys[1..], now);
      (rest.0, one.1 + rest.1)
  }

  function WithoutIdle(q: QueueState): QueueState {
    q.(lanes := map k | k in q.lanes && !Idle(q.lanes[k]) :: q.lanes[k])
  }

  function AfterDispatch(q: QueueState, keys: seq<string>, now: int): (QueueState, seq<Command>) {
    var r := DispatchKeys(q, keys, now);
    (WithoutIdle(r.0), r.1)
  }

  /** The critical section at the end of execute_command: it frees the lane without looking at
      which command the lane holds. */
  function AfterFinish(q: QueueState, key: string): QueueState {
    q.(lanes := if key in q.lanes then q.lanes[key := q.lanes[key].(active := Nothing)] else q.lanes,
       activeCount := q.activeCount - 1)
  }

  // ---------------------------------------------------------------------
  // The class
  // ---------------------------------------------------------------------

  ghost function Views(lanes: map<string, SessionLane>): map<string, Lane>
    reads lanes.Values
  {
    map k | k in lanes :: lanes[k].View()
  }

  ghost predicate Separate(lanes: map<string, SessionLane>) {
    forall a, b :: a in lanes && b in lanes && a != b ==> lanes[a] != lanes[b]
  }

  /** Changing one lane object changes one entry of the lanes. */
  lemma OneLaneChanged(lanes: map<string, SessionLane>, key: string, before: map<string, Lane>)
    requires key in lanes && before.Keys == lanes.Keys
    requires forall k :: k in lanes && k != key ==> lanes[k].View() == before[k]
    ensures Views(lanes) == before[key := lanes[key].View()]
  {
  }

  lemma Overwrite<K, V>(m: map<K, V>, k: K, a: V, b: V)
    ensures m[k := a][k := b] == m[k := b]
  {
  }

  class CommandQueue {
    var config: QueueConfig
    var lanes: map<string, SessionLane>
    var owner: map<string, string>
    var activeCount: int

    ghost predicate Valid()
      reads this
    {
      Separate(lanes)
    }

    ghost function View(): QueueState
      reads this, lanes.Values
    {
      QueueState(config, Views(lanes), owner, activeCount)
    }

    constructor (config: QueueConfig)
      ensures Valid() && View() == QueueState(config, map[], map[], 0)
    {
      this.config := config;
      lanes, owner, activeCount := map[], map[], 0;
    }

    method GetLane(key: string) returns (lane: SessionLane)
      requires Valid()
      modifies this`lanes
      ensures Valid() && lanes == old(lanes)[key := lane]
      ensures if key in old(lanes) then lane == old(lanes)[key] && lane in old(lanes.Values) else fresh(lane)
      ensures lane.View() == old(LaneAt(View(), key))
      ensures Views(lanes) == old(Views(lanes))[key := lane.View()]
    {
      if key in lanes {
        return lanes[key];
      }
      lane := new SessionLane(key);
      lane.Configure(config.defaultMode, config.debounceMs, config.cap, config.drop);
      lanes := lanes[key := lane];
    }

    method Submit(cmd: Command) returns (dropped: seq<string>)
      requires Valid()
      modifies this, lanes.Values
      ensures Valid() && forall k :: k in lanes && k !in old(lanes) ==> fresh(lanes[k])
      ensures View() == old(AfterSubmit(View(), cmd).0)
      ensures dropped == old(AfterSubmit(View(), cmd).1)
    {
      hide SubmitLane, LaneAt, Erased;
      dropped := SubmitToSession(cmd);
      owner := owner[cmd.id := cmd.sessionKey];
      EraseAll(dropped);
    }

    method SubmitToSession(cmd: Command) returns (dropped: seq<string>)
      requires Valid()
      modifies this`lanes, lanes.Values
      ensures Valid() && forall k :: k in lanes && k !in old(lanes) ==> fresh(lanes[k])
      ensures Views(lanes) == old(Views(lanes)[cmd.sessionKey := SubmitLane(LaneAt(View(), cmd.sessionKey), cmd).0])
      ensures dropped == old(SubmitLane(LaneAt(View(), cmd.sessionKey), cmd).1)
    {
      hide SubmitLane, LaneAt;
      var lane := GetLane(cmd.sessionKey);
      ghost var before := Views(lanes);
      dropped := SubmitToLane(lane, cmd);
      OneLaneChanged(lanes, cmd.sessionKey, before);
      Overwrite(old(Views(lanes)), cmd.sessionKey, before[cmd.sessionKey], lane.View());
    }

    method SubmitToLane(lane: SessionLane, command: Command) returns (dropped: seq<string>)
      modifies lane
      ensures (lane.View(), dropped) == old(SubmitLane(lane.View(), command))
    {
      var cmd := command;
      if cmd.mode == Collect {
        cmd := cmd.(mode := lane.mode);
      }
      if cmd.mode == Interrupt && lane.active.Just? {
        var _ := lane.InterruptActive();
      }
      if cmd.mode == Steer && lane.active.Just? {
        lane.Enqueue(cmd);
        return [];
      }
      if cmd.mode == SteerBacklog && lane.active.Just? {
        lane.Enqueue(cmd);
        return [];
      }
      lane.Enqueue(cmd);
      dropped := lane.ApplyCapOverflow();
    }

    method EraseAll(ids: seq<string>)
      modifies this`owner
      ensures owner == Erased(old(owner), ids)
    {
      for i := 0 to |ids|
        invariant owner == Erased(old(owner), ids[..i])
      {
        assert ids[..i + 1] == ids[..i] + [ids[i]];
        owner := owner - {ids[i]};
      }
      assert ids[..|ids|] == ids;
    }

    method Cancel(id: string) returns (cancelled: bool)
      requires Valid()
      modifies this, lanes.Values
      ensures Valid() && forall k :: k in lanes && k !in old(lanes) ==> fresh(lanes[k])
      ensures View() == old(AfterCancel(View(), id).0)
      ensures cancelled == old(AfterCancel(View(), id).1)
    {
      if id !in owner {
        return false;
      }
      hide LaneAt, Without;
      var key := owner[id];
      var lane := GetLane(key);
      ghost var before := Views(lanes);
      cancelled := lane.CancelPending(id);
      OneLaneChanged(lanes, key, before);
      Overwrite(old(Views(lanes)), key, before[key], lane.View());
      owner := owner - {id};
    }

    method AbortSession(key: string) returns (aborted: bool)
      requires Valid()
      modifies this, lanes.Values
      ensures Valid() && lanes == old(lanes)
      ensures View() == old(AfterAbort(View(), key).0)
      ensures aborted == old(AfterAbort(View(), key).1)
    {
      if key !in lanes {
        return false;
      }
      var id := lanes[key].InterruptActive();
      OneLaneChanged(lanes, key, old(Views(lanes)));
      aborted := id.Just?;
      if aborted {
        owner := owner - {id.value};
      }
    }

    method ConfigureSession(key: string, mode: QueueMode, debounceMs: int, cap: int, drop: Maybe<DropPolicy>)
      requires Valid()
      modifies this, lanes.Values
      ensures Valid() && forall k :: k in lanes && k !in old(lanes) ==> fresh(lanes[k])
      ensures View() == old(AfterConfigure(View(), key, mode, debounceMs, cap, drop))
    {
      hide LaneAt;
      var lane := GetLane(key);
      ghost var before := Views(lanes);
      lane.Configure(mode, if debounceMs >= 0 then debounceMs else lane.debounceMs,
                     if cap >= 0 then cap else lane.cap, if drop.Just? then drop.value else lane.drop);
      OneLaneChanged(lanes, key, before);
      Overwrite(old(Views(lanes)), key, before[key], lane.View());
    }

    method SetConfig(config: QueueConfig)
      requires Valid()
      modifies this`config
      ensures Valid() && View() == old(View()).(config := config)
    {
      this.config := config;
    }

    /** One turn of the dispatcher loop after its wait; `keys` is the order in which the hash map
        of lanes happens to be iterated. */
    method DispatchRound(keys: seq<string>, now: int) returns (toDispatch: seq<Command>)
      requires Valid()
      requires Distinct(keys) && forall k :: k in keys <==> k in lanes
      modifies this, lanes.Values
      ensures Valid() && lanes.Values <= old(lanes.Values)
      ensures View() == old(AfterDispatch(View(), keys, now).0)
      ensures toDispatch == old(AfterDispatch(View(), keys, now).1)
    {
      hide DispatchOne, DispatchKeys;
      toDispatch := [];
      ghost var goal := DispatchKeys(View(), keys, now);
      Whole(keys);
      PrependNothing(goal);
      var i := 0;
      while i < |keys|
        invariant 0 <= i <= |keys|
        invariant Valid() && lanes == old(lanes)
        invariant goal == Prepended(toDispatch, DispatchKeys(View(), keys[i..], now))
      {
        DispatchKeysHead(View(), keys, i, now, toDispatch);
        if lanes[keys[i]].active.Nothing? && activeCount >= config.maxConcurrent {
          break;
        }
        assert !Stops(View(), keys[i]);
        var cmds := DispatchFrom(keys[i], now);
        toDispatch := toDispatch + cmds;
        i := i + 1;
      }
      DispatchKeysNone(View(), now, toDispatch);
      assert goal == (View(), toDispatch);
      DropIdleLanes();
    }

    method DispatchFrom(key: string, now: int) returns (cmds: seq<Command>)
      requires Valid() && key in lanes
      modifies this`owner, this`activeCount, lanes[key]
      ensures View() == old(DispatchOne(View(), key, now).0)
      ensures cmds == old(DispatchOne(View(), key, now).1)
    {
      var lane := lanes[key];
      DispatchedId(lane.View());
      hide DispatchedLane, DispatchedCommand;
      var cmd := TakeCommand(lane, now);
      OneLaneChanged(lanes, key, old(Views(lanes)));
      if cmd.Nothing? {
        assert Views(lanes) == old(Views(lanes));
        return [];
      }
      activeCount := activeCount + 1;
      owner := owner - {cmd.value.id};
      return [cmd.value];
    }

    method TakeCommand(lane: SessionLane, now: int) returns (cmd: Maybe<Command>)
      modifies lane
      ensures var l := old(lane.View());
              if Ready(l, now) then lane.View() == DispatchedLane(l) && cmd == Just(DispatchedCommand(l))
              else lane.View() == l && cmd == Nothing
    {
      if lane.active.Just? {
        return Nothing;
      }
      cmd := lane.TryActivate(now);
      if cmd.Nothing? {
        return;
      }
      var command := cmd.value;
      if command.mode == Collect && lane.pending != [] {
        var steering := lane.DrainPendingAsSteeringText();
        if steering != "" {
          command := command.(params := command.params["collectedMessages" := steering]);
        }
      }
      if command.mode == Followup {
        if |lane.pending| > 1 {
          var _ := lane.DrainPendingAsSteeringText();
        }
      }
      cmd := Just(command);
    }

    method DropIdleLanes()
      requires Valid()
      modifies this`lanes
      ensures Valid() && lanes.Values <= old(lanes.Values)
      ensures View() == old(WithoutIdle(View()))
    {
      lanes := map k | k in lanes && !Idle(lanes[k].View()) :: lanes[k];
    }

    /** What a worker does under the lock when its command has run. */
    method CompleteCommand(sessionKey: string)
      requires Valid()
      modifies this, lanes.Values
      ensures Valid() && lanes == old(lanes)
      ensures View() == old(AfterFinish(View(), sessionKey))
    {
      if sessionKey in lanes {
        var _ := lanes[sessionKey].CompleteActive();
        OneLaneChanged(lanes, sessionKey, old(Views(lanes)));
      }
      activeCount := activeCount - 1;
    }
  }

  ghost function Prepended(done: seq<Command>, r: (QueueState, seq<Command>)): (QueueState, seq<Command>) {
    (r.0, done + r.1)
  }

  lemma DispatchedId(l: Lane)
    ensures l.pending != [] ==> DispatchedCommand(l).id == l.pending[0].id
  {
  }

  lemma PrependNothing(r: (QueueState, seq<Command>))
    ensures Prepended([], r) == r
  {
    assert [] + r.1 == r.1;
  }

  lemma DispatchKeysNone(q: QueueState, now: int, done: seq<Command>)
    ensures Prepended(done, DispatchKeys(q, [], now)) == (q, done)
  {
    assert done + [] == done;
  }

  lemma DispatchKeysHead(q: QueueState, keys: seq<string>, i: nat, now: int, done: seq<Command>)
    requires i < |keys|
    ensures Prepended(done, DispatchKeys(q, keys[i..], now)) ==
            if Stops(q, keys[i]) then (q, done)
            else Prepended(done + DispatchOne(q, keys[i], now).1,
                           DispatchKeys(DispatchOne(q, keys[i], now).0, keys[i + 1..], now))
  {
    SplitAt(keys, i);
    var one := DispatchOne(q, keys[i], now);
    Assoc(done, one.1, DispatchKeys(one.0, keys[i + 1..], now).1);
    assert done + [] == done;
  }
}
