/** Telegram updates from the duplicate check to the per-chat handlers: the deduplication store,
    the lane processor, and HandleUpdate. */
module Delivery {
  import opened Seqs
  import opened QueueText

  // ---------------------------------------------------------------------
  // The deduplication store
  // ---------------------------------------------------------------------

  datatype Store = Store(watermark: int, processed: set<int>)

  predicate IsProcessed(s: Store, id: int) {
    id <= s.watermark || id in s.processed
  }

  function Marked(s: Store, id: int): Store {
    Store(if id > s.watermark then id else s.watermark, s.processed + {id})
  }

  /** The retention is in hours; C++ division truncates toward zero. */
  function RetentionThreshold(watermark: int, hours: int): int {
    watermark - (if hours >= 0 then hours / 24 else -((-hours) / 24)) * 10000
  }

  function CleanedUp(s: Store, hours: int): Store {
    s.(processed := set id | id in s.processed && id >= RetentionThreshold(s.watermark, hours))
  }

  class DeduplicationStore {
    var watermark: int
    var processed: set<int>

    function View(): Store
      reads this
    {
      Store(watermark, processed)
    }

    constructor ()
      ensures View() == Store(0, {})
    {
      watermark, processed := 0, {};
    }

    method Check(id: int) returns (seen: bool)
      ensures seen <==> IsProcessed(View(), id)
    {
      if id <= watermark {
        return true;
      }
      return id in processed;
    }

    method MarkProcessed(id: int)
      modifies this
      ensures View() == Marked(old(View()), id)
    {
      if id > watermark {
        watermark := id;
      }
      processed := processed + {id};
    }

    method SetWatermark(id: int)
      modifies this
      ensures View() == old(View()).(watermark := id)
    {
      watermark := id;
    }

    /** Erases from the smallest id upwards until one is recent enough. */
    method Cleanup(hours: int)
      modifies this
      ensures View() == CleanedUp(old(View()), hours)
    {
      var threshold := RetentionThreshold(watermark, hours);
      while processed != {}
        invariant watermark == old(watermark) && processed <= old(processed)
        invariant forall id :: id in old(processed) && id !in processed ==> id < threshold
        decreases |processed|
      {
        if !exists id :: id in processed {
          NoMembers(processed);
        }
        var any :| any in processed;
        SmallestExists(processed, any);
        var smallest :| smallest in processed && forall id :: id in processed ==> smallest <= id;
        if smallest >= threshold {
          return;
        }
        processed := processed - {smallest};
      }
    }
  }

  lemma SmallerSet(a: set<int>, b: set<int>, y: int)
    requires a <= b && y in b && y !in a
    ensures |a| < |b|
  {
    assert b == a + (b - a) && |b - a| > 0 by {
      assert y in b - a;
    }
  }

  lemma {:induction false} SmallestExists(s: set<int>, x: int)
    requires x in s
    ensures exists least :: least in s && forall z :: z in s ==> least <= z
    decreases |set z | z in s && z < x|
  {
    if exists y :: y in s && y < x {
      var y :| y in s && y < x;
      var below, below' := set z | z in s && z < x, set z | z in s && z < y;
      SmallerSet(below', below, y);
      SmallestExists(s, y);
    } else {
      forall z | z in s ensures x <= z {
      }
    }
  }

  /** Cleaning up with a non-negative retention changes no answer of the store. */
  lemma CleanupInvisible(s: Store, hours: int, id: int)
    requires hours >= 0
    ensures IsProcessed(CleanedUp(s, hours), id) <==> IsProcessed(s, id)
  {
    assert hours / 24 * 10000 >= 0;
  }

  // ---------------------------------------------------------------------
  // The lane processor
  // ---------------------------------------------------------------------

  /** A queued handler, named by the update it handles. */
  type Task = int

  /** Where a lane's worker thread is: before the test of its running flag, between that test and
      the pop, inside a handler, or returned. */
  datatype Worker = AtLoop | Fetching | Handling(task: Task) | Stopped

  datatype ChatLane = ChatLane(queue: seq<Task>, running: bool, worker: Worker)

  datatype Lanes = Lanes(lanes: map<string, ChatLane>, shutdown: bool)

  function Submitted(p: Lanes, lane: string, task: Task): Lanes {
    if p.shutdown then p
    else
      var l := if lane in p.lanes then p.lanes[lane] else ChatLane([], true, AtLoop);
      p.(lanes := p.lanes[lane := l.(queue := l.queue + [task])])
  }

  /** while (lane->running) */
  function Checked(l: ChatLane): ChatLane {
    l.(worker := if l.running then Fetching else Stopped)
  }

  /** The wait is over: there is a task, or the lane is being stopped. */
  predicate Wakes(l: ChatLane) {
    l.worker.Fetching? && (l.queue != [] || !l.running)
  }

  /** A task that is there is taken even when the lane is being stopped. */
  function Fetched(l: ChatLane): ChatLane
    requires Wakes(l)
  {
    if l.queue == [] then l.(worker := Stopped)
    else l.(queue := l.queue[1..], worker := Handling(l.queue[0]))
  }

  class LaneProcessor {
    var lanes: map<string, ChatLane>
    var shutdown: bool

    function View(): Lanes
      reads this
    {
      Lanes(lanes, shutdown)
    }

    constructor ()
      ensures View() == Lanes(map[], false)
    {
      lanes, shutdown := map[], false;
    }

    method Submit(lane: string, task: Task)
      modifies this
      ensures View() == Submitted(old(View()), lane, task)
    {
      if shutdown {
        return;
      }
      if lane !in lanes {
        lanes := lanes[lane := ChatLane([], true, AtLoop)];
      }
      lanes := lanes[lane := lanes[lane].(queue := lanes[lane].queue + [task])];
    }

    /** One pass through the critical section of worker_thread, once the wait is over. */
    method Fetch(lane: string) returns (handler: Maybe<Task>)
      requires lane in lanes && Wakes(lanes[lane])
      modifies this
      ensures View() == old(View()).(lanes := old(lanes)[lane := Fetched(old(lanes)[lane])])
      ensures handler == if old(lanes)[lane].queue == [] then Nothing else Just(old(lanes)[lane].queue[0])
    {
      var l := lanes[lane];
      if !l.running && l.queue == [] {
        lanes := lanes[lane := l.(worker := Stopped)];
        return Nothing;
      }
      handler := Just(l.queue[0]);
      lanes := lanes[lane := l.(queue := l.queue[1..], worker := Handling(l.queue[0]))];
    }
  }

  // ---------------------------------------------------------------------
  // HandleUpdate
  // ---------------------------------------------------------------------

  datatype Payload = Chat(chatId: Maybe<string>) | CallbackQuery | OtherPayload

  datatype Update = Update(id: Maybe<int>, payload: Payload)

  function LaneOf(p: Payload): string
    requires p.Chat?
  {
    if p.chatId.Just? then p.chatId.value else "default"
  }

  /** The ledger: ids that passed the duplicate check, and per lane the tasks submitted, started
      and finished. */
  datatype Ledger = Ledger(passed: seq<int>, submitted: map<string, seq<Task>>,
                           started: map<string, seq<Task>>, finished: map<string, seq<Task>>)

  datatype World = World(store: Store, lanes: Lanes, ledger: Ledger)

  predicate Passes(s: Store, u: Update) {
    u.id.Just? && !IsProcessed(s, u.id.value)
  }

  function HandledStore(s: Store, u: Update): Store {
    if Passes(s, u) then Marked(s, u.id.value) else s
  }

  function HandledLanes(s: Store, p: Lanes, u: Update): Lanes {
    if Passes(s, u) && u.payload.Chat? then Submitted(p, LaneOf(u.payload), u.id.value) else p
  }

  class TelegramChannel {
    const store: DeduplicationStore
    const processor: LaneProcessor

    constructor (store: DeduplicationStore, processor: LaneProcessor)
      ensures this.store == store && this.processor == processor
    {
      this.store, this.processor := store, processor;
    }

    method HandleUpdate(u: Update)
      modifies store, processor
      ensures store.View() == HandledStore(old(store.View()), u)
      ensures processor.View() == HandledLanes(old(store.View()), old(processor.View()), u)
    {
      if u.id.Nothing? {
        return;
      }
      var duplicate := store.Check(u.id.value);
      if duplicate {
        return;
      }
      store.MarkProcessed(u.id.value);
      if u.payload.Chat? {
        processor.Submit(LaneOf(u.payload), u.id.value);
      }
    }
  }

  // ---------------------------------------------------------------------
  // Runs: one poller, one worker per lane, and a shutdown, interleaved
  // ---------------------------------------------------------------------

  datatype Action =
    | Feed(u: Update)
    | Clean(hours: int)
    | Raise(watermark: int)
    | Check(lane: string)
    | Fetch(lane: string)
    | Finish(lane: string)
    | BeginShutdown
    | StopLane(lane: string)
    | ClearLanes

  function Log(m: map<string, seq<Task>>, lane: string): seq<Task> {
    if lane in m then m[lane] else []
  }

  function LaneIn(w: World, lane: string): ChatLane {
    if lane in w.lanes.lanes then w.lanes.lanes[lane] else ChatLane([], true, AtLoop)
  }

  function FeedStep(w: World, u: Update): World {
    var store, lanes := HandledStore(w.store, u), HandledLanes(w.store, w.lanes, u);
    if !Passes(w.store, u) then w
    else
      var g := w.ledger.(passed := w.ledger.passed + [u.id.value]);
      World(store, lanes,
            if u.payload.Chat? && !w.lanes.shutdown
            then g.(submitted := g.submitted[LaneOf(u.payload) := Log(g.submitted, LaneOf(u.payload)) + [u.id.value]])
            else g)
  }

  function WithLane(w: World, lane: string, l: ChatLane): World {
    w.(lanes := w.lanes.(lanes := w.lanes.lanes[lane := l]))
  }

  /** An action that cannot happen in this state changes nothing. */
  function Step(w: World, a: Action): World {
    match a
    case Feed(u) => FeedStep(w, u)
    case Clean(hours) => w.(store := CleanedUp(w.store, hours))
    case Raise(watermark) => w.(store := w.store.(watermark := watermark))
    case Check(lane) =>
      if lane in w.lanes.lanes && LaneIn(w, lane).worker.AtLoop? then WithLane(w, lane, Checked(LaneIn(w, lane))) else w
    case Fetch(lane) =>
      if lane in w.lanes.lanes && Wakes(LaneIn(w, lane)) then
        var l, v := LaneIn(w, lane), WithLane(w, lane, Fetched(LaneIn(w, lane)));
        if l.queue == [] then v
        else v.(ledger := v.ledger.(started := v.ledger.started[lane := Log(v.ledger.started, lane) + [l.queue[0]]]))
      else w
    case Finish(lane) =>
      if lane in w.lanes.lanes && LaneIn(w, lane).worker.Handling? then
        var l, v := LaneIn(w, lane), WithLane(w, lane, LaneIn(w, lane).(worker := AtLoop));
        v.(ledger := v.ledger.(finished := v.ledger.finished[lane := Log(v.ledger.finished, lane) + [l.worker.task]]))
      else w
    case BeginShutdown => w.(lanes := w.lanes.(shutdown := true))
    case StopLane(lane) =>
      if w.lanes.shutdown && lane in w.lanes.lanes then WithLane(w, lane, LaneIn(w, lane).(running := false)) else w
    case ClearLanes =>
      if w.lanes.shutdown && forall k :: k in w.lanes.lanes ==> w.lanes.lanes[k].worker.Stopped?
      then w.(lanes := w.lanes.(lanes := map[])) else w
  }

  function Start(): World {
    World(Store(0, {}), Lanes(map[], false), Ledger([], map[], map[], map[]))
  }

  function Run(actions: seq<Action>): World {
    if actions == [] then Start() else Step(Run(actions[..|actions| - 1]), actions[|actions| - 1])
  }

  /** Runs in which the watermark is never set below its value. */
  predicate NeverLowers(actions: seq<Action>) {
    actions == [] ||
    (var n := |actions| - 1;
     NeverLowers(actions[..n]) &&
     (actions[n].Raise? ==> actions[n].watermark >= Run(actions[..n]).store.watermark))
  }

  ghost predicate Increasing(s: seq<int>) {
    forall i, j :: 0 <= i < j < |s| ==> s[i] < s[j]
  }

  ghost predicate StoreInv(w: World) {
    && Increasing(w.ledger.passed)
    && (forall id :: id in w.ledger.passed ==> id <= w.store.watermark)
    && (forall id :: id in w.store.processed ==> id <= w.store.watermark)
  }

  /** What is in a lane's hands: its tasks started so far, then its queue, are the tasks submitted
      to it in order; all but the one being handled are finished. */
  ghost predicate LaneInv(w: World, lane: string) {
    var l, g := LaneIn(w, lane), w.ledger;
    && (if lane in w.lanes.lanes then Log(g.submitted, lane) == Log(g.started, lane) + l.queue
        else Log(g.started, lane) <= Log(g.submitted, lane) && (!w.lanes.shutdown ==> Log(g.submitted, lane) == []))
    && Log(g.started, lane) == Log(g.finished, lane) + (if l.worker.Handling? then [l.worker.task] else [])
  }

  ghost predicate LedgerInv(w: World, lane: string) {
    && (forall t :: t in Log(w.ledger.submitted, lane) ==> t in w.ledger.passed)
    && Increasing(Log(w.ledger.submitted, lane))
  }

  ghost predicate Inv(w: World) {
    forall lane :: LaneInv(w, lane) && LedgerInv(w, lane)
  }

  lemma IncreasingSnoc(s: seq<int>, x: int)
    requires Increasing(s) && forall t :: t in s ==> t < x
    ensures Increasing(s + [x])
  {
    forall i, j | 0 <= i < j < |s + [x]| ensures (s + [x])[i] < (s + [x])[j] {
      if j == |s| {
        assert s[i] in s;
      }
    }
  }

  lemma StoreStep(w: World, a: Action)
    requires StoreInv(w) && (a.Raise? ==> a.watermark >= w.store.watermark)
    ensures StoreInv(Step(w, a))
  {
    if a.Feed? && Passes(w.store, a.u) {
      IncreasingSnoc(w.ledger.passed, a.u.id.value);
    }
  }

  lemma FeedLaneStep(w: World, u: Update, lane: string)
    requires LaneInv(w, lane)
    ensures LaneInv(FeedStep(w, u), lane)
  {
    if Passes(w.store, u) && u.payload.Chat? && LaneOf(u.payload) == lane && !w.lanes.shutdown {
      Assoc(Log(w.ledger.started, lane), LaneIn(w, lane).queue, [u.id.value]);
    }
  }

  lemma FetchLaneStep(w: World, other: string, lane: string)
    requires LaneInv(w, lane)
    ensures LaneInv(Step(w, Fetch(other)), lane)
  {
    var l := LaneIn(w, lane);
    if other == lane && lane in w.lanes.lanes && Wakes(l) && l.queue != [] {
      Assoc(Log(w.ledger.started, lane), [l.queue[0]], l.queue[1..]);
      assert [l.queue[0]] + l.queue[1..] == l.queue;
    }
  }

  lemma LaneStep(w: World, a: Action, lane: string)
    requires LaneInv(w, lane)
    ensures LaneInv(Step(w, a), lane)
  {
    match a
    case Feed(u) => FeedLaneStep(w, u, lane);
    case Fetch(other) => FetchLaneStep(w, other, lane);
    case _ =>
      hide HandledStore, HandledLanes, Passes;
  }

  lemma LedgerStep(w: World, a: Action, lane: string)
    requires LedgerInv(w, lane) && StoreInv(w)
    ensures LedgerInv(Step(w, a), lane)
  {
    if a.Feed? && Passes(w.store, a.u) {
      var s := Log(w.ledger.submitted, lane);
      forall t | t in s ensures t < a.u.id.value {
        assert t in w.ledger.passed;
      }
      IncreasingSnoc(s, a.u.id.value);
    }
  }

  lemma {:induction false} RunInv(actions: seq<Action>)
    requires NeverLowers(actions)
    ensures StoreInv(Run(actions)) && Inv(Run(actions))
  {
    hide StoreInv, LaneInv, LedgerInv, Step;
    if actions == [] {
      StartInv();
    } else {
      var n := |actions| - 1;
      var w := Run(actions[..n]);
      RunInv(actions[..n]);
      StoreStep(w, actions[n]);
      forall lane ensures LaneInv(Step(w, actions[n]), lane) && LedgerInv(Step(w, actions[n]), lane) {
        LaneStep(w, actions[n], lane);
        LedgerStep(w, actions[n], lane);
      }
    }
  }

  lemma StartInv()
    ensures StoreInv(Start()) && Inv(Start())
  {
  }

  /** However the poller, the workers and a shutdown interleave: update ids pass the duplicate
      check in strictly increasing order; the handlers a chat has started are a prefix of its
      accepted updates in that order, so each runs at most once; and at most one is running. */
  lemma DeliveredInOrder(actions: seq<Action>, lane: string)
    requires NeverLowers(actions)
    ensures var g := Run(actions).ledger;
            && Increasing(g.passed)
            && Increasing(Log(g.submitted, lane)) && (forall t :: t in Log(g.submitted, lane) ==> t in g.passed)
            && Log(g.started, lane) <= Log(g.submitted, lane)
            && Log(g.finished, lane) <= Log(g.started, lane)
            && |Log(g.started, lane)| <= |Log(g.finished, lane)| + 1
  {
    hide Run, NeverLowers;
    RunInv(actions);
    assert LaneInv(Run(actions), lane) && LedgerInv(Run(actions), lane);
  }

  /** Until a shutdown nothing accepted is lost: it has been started or waits in its lane. */
  lemma NothingLostBeforeShutdown(actions: seq<Action>, lane: string)
    requires NeverLowers(actions) && !Run(actions).lanes.shutdown
    ensures var w := Run(actions);
            Log(w.ledger.submitted, lane) == Log(w.ledger.started, lane) + LaneIn(w, lane).queue
  {
    hide Run, NeverLowers;
    RunInv(actions);
    assert LaneInv(Run(actions), lane);
  }

  /** After the watermark is set to any value, the next update keeps the accepted ids increasing
      exactly when it is refused, at or below the watermark or in the id set, or is newer than all
      accepted ones. */
  lemma LoweringReordersIff(w: World, low: int, u: Update)
    requires StoreInv(w) && u.id.Just?
    ensures var v := Step(Step(w, Raise(low)), Feed(u));
            Increasing(v.ledger.passed) <==>
            (u.id.value <= low || u.id.value in w.store.processed ||
             forall id :: id in w.ledger.passed ==> id < u.id.value)
  {
    var v := Step(Step(w, Raise(low)), Feed(u));
    var passed, n := w.ledger.passed, |w.ledger.passed|;
    if Passes(w.store.(watermark := low), u) {
      assert v.ledger.passed == passed + [u.id.value];
      if Increasing(v.ledger.passed) {
        forall id | id in passed ensures id < u.id.value {
          var i :| 0 <= i < n && passed[i] == id;
          assert v.ledger.passed[i] < v.ledger.passed[n];
        }
      }
      if forall id :: id in passed ==> id < u.id.value {
        IncreasingSnoc(passed, u.id.value);
      }
    }
  }

  /** So lowering it does let an older update through after a newer one. */
  lemma LoweringReorders(w: World, low: int, id: int)
    requires StoreInv(w) && w.ledger.passed != [] && low < id < w.ledger.passed[|w.ledger.passed| - 1]
    requires id !in w.store.processed
    ensures !Increasing(Step(Step(w, Raise(low)), Feed(Update(Just(id), CallbackQuery))).ledger.passed)
  {
    var v := Step(Step(w, Raise(low)), Feed(Update(Just(id), CallbackQuery)));
    var n := |w.ledger.passed|;
    assert v.ledger.passed[n - 1] > v.ledger.passed[n];
  }

  // ---------------------------------------------------------------------
  // Single steps
  // ---------------------------------------------------------------------

  /** d is the whole days in so many hours, cut off toward zero. */
  predicate IsDays(hours: int, d: int) {
    if hours >= 0 then 24 * d <= hours < 24 * d + 24 else 24 * d - 24 < hours <= 24 * d
  }

  /** A cleanup forgets exactly the ids that lie more than 10000 a day of the retention below the
      watermark. */
  lemma CleanupKeepsIff(s: Store, hours: int, d: int, id: int)
    requires IsDays(hours, d)
    ensures var v := CleanedUp(s, hours);
            v.watermark == s.watermark && (id in v.processed <==> id in s.processed && id + 10000 * d >= s.watermark)
  {
  }

  /** An update without an id, or with one at or below the watermark or recorded, changes nothing. Any
      other is recorded, and a message is queued last in the lane of its chat, or of "default" without
      a chat id, unless shut down; no other lane changes. */
  lemma FeedIs(w: World, u: Update)
    ensures var v := Step(w, Feed(u));
            if u.id == Nothing || u.id.value <= w.store.watermark || u.id.value in w.store.processed then v == w
            else
              var id := u.id.value;
              && v.store == Store(id, w.store.processed + {id}) && v.ledger.passed == w.ledger.passed + [id]
              && v.ledger.started == w.ledger.started && v.ledger.finished == w.ledger.finished
              && v.lanes.shutdown == w.lanes.shutdown
              && if u.payload.Chat? && !w.lanes.shutdown
                 then Queued(w, v, if u.payload.chatId == Nothing then "default" else u.payload.chatId.value, id)
                 else v.lanes == w.lanes && v.ledger.submitted == w.ledger.submitted
  {
  }

  ghost predicate Queued(w: World, v: World, lane: string, id: int) {
    && lane in v.lanes.lanes && LaneIn(v, lane) == LaneIn(w, lane).(queue := LaneIn(w, lane).queue + [id])
    && Log(v.ledger.submitted, lane) == Log(w.ledger.submitted, lane) + [id]
    && forall other :: other != lane ==>
         && (other in v.lanes.lanes <==> other in w.lanes.lanes) && LaneIn(v, other) == LaneIn(w, other)
         && Log(v.ledger.submitted, other) == Log(w.ledger.submitted, other)
  }

  /** What a worker does when it is its turn: before the loop it goes on exactly while the lane runs;
      it takes the oldest handler whenever there is one, even of a lane that is being stopped; without
      one it waits while the lane runs, and ends otherwise. */
  lemma WorkerIs(w: World, lane: string)
    requires lane in w.lanes.lanes
    ensures var l, checked, fetched := LaneIn(w, lane), Step(w, Check(lane)), Step(w, Fetch(lane));
            match l.worker
            case AtLoop => LaneIn(checked, lane) == l.(worker := if l.running then Fetching else Stopped)
            case Fetching =>
              if l.queue != [] then
                && LaneIn(fetched, lane) == l.(queue := l.queue[1..], worker := Handling(l.queue[0]))
                && Log(fetched.ledger.started, lane) == Log(w.ledger.started, lane) + [l.queue[0]]
              else if l.running then fetched == w
              else LaneIn(fetched, lane) == l.(worker := Stopped) && fetched.ledger == w.ledger
            case _ => checked == w && fetched == w
  {
  }

  /** At first no id above 0 has been seen. */
  lemma NothingSeenYet(id: int)
    ensures IsProcessed(Start().store, id) <==> id <= 0
  {
  }
}
