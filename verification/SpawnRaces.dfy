/** Spawns that race: the manager lets go of its lock between checking the limits and inserting the
    run, so other steps may come in between. How far a parent's running children can then exceed the
    limit is bounded by how many of its spawns are in between at a time. */
module SpawnRaces {
  import opened Seqs
  import opened PostingLists
  import opened Subagents

  datatype Spawn = Spawn(p: SpawnParams, parent: string, depth: nat)

  /** `between` are the spawns that have passed the checks and not yet inserted their run. */
  datatype World = World(m: Manager, between: seq<Spawn>, used: set<string>)

  datatype Move =
    | Check(spawn: Spawn)
    | Insert(i: nat, id: string, suffix: string)
    | Other(a: Action)

  /** Generated run ids never repeat. */
  predicate Possible(w: World, move: Move) {
    match move
    case Check(spawn) => true
    case Insert(i, id, suffix) => i < |w.between| && id !in w.used
    case Other(a) => !a.Begin?
  }

  function Moved(cfg: Config, w: World, move: Move): World
    requires Possible(w, move)
  {
    match move
    case Check(s) => if MaySpawn(w.m, cfg, s.p, s.parent, s.depth) then w.(between := w.between + [s]) else w
    case Insert(i, id, suffix) =>
      var s := w.between[i];
      World(Started(w.m, NewRun(s.p, s.parent, id, suffix)), w.between[..i] + w.between[i + 1..], w.used + {id})
    case Other(a) => w.(m := Step(cfg, w.m, a))
  }

  function Overlap(between: seq<Spawn>, parent: string): nat {
    if between == [] then 0 else (if between[0].parent == parent then 1 else 0) + Overlap(between[1..], parent)
  }

  function Running(w: World, parent: string): nat {
    Active(w.m.runs, Posted(w.m.children, parent))
  }

  function Start(): World {
    World(Manager(map[], map[]), [], {})
  }

  /** The moves lead to w, and never more than k spawns of the parent are between check and insertion. */
  ghost predicate Reaches(cfg: Config, parent: string, k: nat, moves: seq<Move>, w: World)
    decreases |moves|, 1
  {
    if moves == [] then w == Start() else exists v :: ReachesBy(cfg, parent, k, moves, v, w)
  }

  ghost predicate ReachesBy(cfg: Config, parent: string, k: nat, moves: seq<Move>, v: World, w: World)
    requires moves != []
    decreases |moves|, 0
  {
    && Reaches(cfg, parent, k, moves[..|moves| - 1], v)
    && IsMove(cfg, v, moves[|moves| - 1], w) && Overlap(w.between, parent) <= k
  }

  ghost predicate IsMove(cfg: Config, v: World, move: Move, w: World) {
    Possible(v, move) && w == Moved(cfg, v, move)
  }

  lemma {:induction false} OverlapConcat(a: seq<Spawn>, b: seq<Spawn>, parent: string)
    ensures Overlap(a + b, parent) == Overlap(a, parent) + Overlap(b, parent)
  {
    if a == [] {
      assert a + b == b;
    } else {
      Uncons(a, b);
      OverlapConcat(a[1..], b, parent);
    }
  }

  lemma OverlapWithout(between: seq<Spawn>, i: nat, parent: string)
    requires i < |between|
    ensures Overlap(between[..i] + between[i + 1..], parent) + (if between[i].parent == parent then 1 else 0) ==
            Overlap(between, parent)
  {
    assert between == between[..i] + ([between[i]] + between[i + 1..]);
    OverlapConcat(between[..i], [between[i]] + between[i + 1..], parent);
    OverlapConcat([between[i]], between[i + 1..], parent);
    OverlapConcat(between[..i], between[i + 1..], parent);
  }

  /** A new run adds one to its parent's running children and none to others'. */
  lemma InsertedRunning(m: Manager, r: Run, parent: string)
    requires Indexed(m) && r.id !in m.runs && r.state.Running?
    ensures Active(Started(m, r).runs, Posted(Started(m, r).children, parent)) ==
            Active(m.runs, Posted(m.children, parent)) + if parent == r.parent then 1 else 0
  {
    hide Indexed, IsActive;
    var after, list := Started(m, r), Posted(m.children, parent);
    InOwnList(m, parent, r.id);
    OthersAsActive(m, r);
    ActiveFalls(m.runs, after.runs, list);
    ActiveFalls(after.runs, m.runs, list);
    ActiveSnoc(after.runs, list, r.id);
    NewIsActive(m, r);
  }

  lemma NewIsActive(m: Manager, r: Run)
    requires r.state.Running?
    ensures IsActive(Started(m, r).runs, r.id)
  {
  }

  /** Steps other than spawns start nothing. */
  lemma OtherRunning(cfg: Config, m: Manager, a: Action, parent: string)
    requires Indexed(m) && !a.Begin?
    ensures Indexed(Step(cfg, m, a)) && Step(cfg, m, a).runs.Keys <= m.runs.Keys
    ensures Active(Step(cfg, m, a).runs, Posted(Step(cfg, m, a).children, parent)) <=
            Active(m.runs, Posted(m.children, parent))
  {
    var after := Step(cfg, m, a);
    if a.Cleanup? {
      hide Indexed, Active;
      DropIndexed(m, DisposableIds(m));
      DroppedPosted(m, DisposableIds(m), parent);
      ActiveWithout(m.runs, Posted(m.children, parent), DisposableIds(m));
      ActiveFalls(m.runs, after.runs, Posted(after.children, parent));
    } else {
      hide Active;
      ActiveFalls(m.runs, after.runs, Posted(m.children, parent));
    }
  }

  ghost predicate Booked(w: World) {
    Indexed(w.m) && w.m.runs.Keys <= w.used
  }

  function Room(cfg: Config): nat {
    if cfg.maxChildren < 1 then 0 else cfg.maxChildren - 1
  }

  lemma MoveBooked(cfg: Config, v: World, move: Move, w: World)
    requires IsMove(cfg, v, move, w) && Booked(v)
    ensures Booked(w)
  {
    hide Indexed, NewRun, Step, MaySpawn;
    match move
    case Check(s) =>
    case Insert(i, id, suffix) =>
      NewRunIs(v.between[i].p, v.between[i].parent, id, suffix);
      BeginIndexed(v.m, NewRun(v.between[i].p, v.between[i].parent, id, suffix));
    case Other(a) => OtherRunning(cfg, v.m, a, "");
  }

  lemma MoveBounded(cfg: Config, v: World, move: Move, w: World, parent: string)
    requires IsMove(cfg, v, move, w) && Booked(v)
    ensures Running(w, parent) + Overlap(w.between, parent) <= Running(v, parent) + Overlap(v.between, parent) ||
            (Running(w, parent) <= Room(cfg) && w.between != [])
  {
    hide Indexed, NewRun, Step, Active;
    match move
    case Check(s) =>
      OverlapConcat(v.between, [s], parent);
      if s.parent == parent && s.parent !in v.m.children {
        NobodyRuns(v.m.runs);
      }
    case Insert(i, id, suffix) =>
      var s := v.between[i];
      NewRunIs(s.p, s.parent, id, suffix);
      InsertedRunning(v.m, NewRun(s.p, s.parent, id, suffix), parent);
      OverlapWithout(v.between, i, parent);
    case Other(a) => OtherRunning(cfg, v.m, a, parent);
  }

  lemma NobodyRuns(runs: map<string, Run>)
    ensures Active(runs, []) == 0
  {
  }

  /** With at most k spawns of a parent at a time between check and insertion, the parent has at most
      max(0, max_children - 1) + k running children, those about to be inserted included. */
  lemma {:induction false} RacingBounded(cfg: Config, parent: string, k: nat, moves: seq<Move>, w: World)
    requires Reaches(cfg, parent, k, moves, w)
    ensures Running(w, parent) + Overlap(w.between, parent) <= Room(cfg) + k
    ensures Booked(w)
    decreases |moves|
  {
    hide Running, Booked, IsMove;
    if moves == [] {
      StartBooked(parent);
    } else {
      var n := |moves| - 1;
      var v :| ReachesBy(cfg, parent, k, moves, v, w);
      RacingBounded(cfg, parent, k, moves[..n], v);
      MoveBooked(cfg, v, moves[n], w);
      MoveBounded(cfg, v, moves[n], w, parent);
    }
  }

  lemma StartBooked(parent: string)
    ensures Booked(Start()) && Running(Start(), parent) == 0
  {
  }

  // ---------------------------------------------------------------------
  // The race can be lost by any margin
  // ---------------------------------------------------------------------

  lemma ReachesSnoc(cfg: Config, parent: string, k: nat, moves: seq<Move>, v: World, move: Move)
    requires Reaches(cfg, parent, k, moves, v) && Possible(v, move)
    requires Overlap(Moved(cfg, v, move).between, parent) <= k
    ensures Reaches(cfg, parent, k, moves + [move], Moved(cfg, v, move))
  {
    assert (moves + [move])[..|moves|] == moves;
    assert ReachesBy(cfg, parent, k, moves + [move], v, Moved(cfg, v, move));
  }

  /** All that the checks look at besides the manager. */
  predicate Allowed(cfg: Config, s: Spawn) {
    s.depth < cfg.maxDepth && (cfg.allowed == [] || Target(s.p) in cfg.allowed)
  }

  function Copies(s: Spawn, n: nat): seq<Spawn> {
    if n == 0 then [] else [s] + Copies(s, n - 1)
  }

  lemma {:induction false} CopiesOverlap(s: Spawn, n: nat)
    ensures Overlap(Copies(s, n), s.parent) == n && |Copies(s, n)| == n
    ensures Copies(s, n) + [s] == Copies(s, n + 1)
  {
    if n > 0 {
      CopiesOverlap(s, n - 1);
      assert Copies(s, n)[1..] == Copies(s, n - 1);
      Assoc([s], Copies(s, n - 1), [s]);
    }
  }

  function Name(n: nat): (name: string)
    ensures |name| == n
  {
    seq(n, i => 'r')
  }

  /** The ids used so far are the first n names. */
  ghost predicate NamedBelow(w: World, n: nat) {
    forall id :: id in w.used ==> |id| < n
  }

  lemma MayStill(cfg: Config, s: Spawn, w: World)
    requires Allowed(cfg, s) && Running(w, s.parent) <= Room(cfg) && (cfg.maxChildren < 1 ==> s.parent !in w.m.children)
    ensures MaySpawn(w.m, cfg, s.p, s.parent, s.depth)
  {
  }

  lemma OneMoreRuns(cfg: Config, v: World, move: Move, parent: string)
    requires move.Insert? && Possible(v, move) && Booked(v) && v.between[move.i].parent == parent
    ensures Running(Moved(cfg, v, move), parent) == Running(v, parent) + 1
  {
    hide Indexed, NewRun;
    var s := v.between[move.i];
    NewRunIs(s.p, s.parent, move.id, move.suffix);
    InsertedRunning(v.m, NewRun(s.p, s.parent, move.id, move.suffix), parent);
  }

  /** The first of the copies inserts its run. */
  lemma FirstInserts(cfg: Config, s: Spawn, k: nat, n: nat, before: seq<Move>, v: World, used: nat)
    returns (moves: seq<Move>, w: World)
    requires Reaches(cfg, s.parent, k, before, v) && v.between == Copies(s, n + 1) && n <= k && NamedBelow(v, used)
    ensures Reaches(cfg, s.parent, k, moves, w) && w.between == Copies(s, n) && NamedBelow(w, used + 1)
    ensures Running(w, s.parent) == Running(v, s.parent) + 1
  {
    hide Reaches, Running, Booked;
    RacingBounded(cfg, s.parent, k, before, v);
    CopiesOverlap(s, n);
    CopiesOverlap(s, n + 1);
    var move := Insert(0, Name(used), "");
    assert Name(used) !in v.used;
    w := Moved(cfg, v, move);
    assert w.between == [] + v.between[1..] == Copies(s, n);
    ReachesSnoc(cfg, s.parent, k, before, v, move);
    moves := before + [move];
    OneMoreRuns(cfg, v, move, s.parent);
  }

  lemma SameRunning(v: World, w: World, parent: string)
    requires w.m == v.m
    ensures Running(w, parent) == Running(v, parent)
  {
  }

  /** n copies of a spawn pass the checks one after the other, before any inserts its run. */
  lemma {:induction false} AllPassFirst(cfg: Config, s: Spawn, k: nat, n: nat, before: seq<Move>, v: World)
    returns (moves: seq<Move>)
    requires n <= k && v.between == [] && Reaches(cfg, s.parent, k, before, v)
    requires MaySpawn(v.m, cfg, s.p, s.parent, s.depth)
    ensures Reaches(cfg, s.parent, k, moves, v.(between := Copies(s, n)))
  {
    hide Reaches, MaySpawn;
    if n == 0 {
      moves := before;
      assert v.(between := Copies(s, 0)) == v;
    } else {
      moves := AllPassFirst(cfg, s, k, n - 1, before, v);
      CopiesOverlap(s, n - 1);
      CopiesOverlap(s, n);
      ReachesSnoc(cfg, s.parent, k, moves, v.(between := Copies(s, n - 1)), Check(s));
      moves := moves + [Check(s)];
    }
  }

  lemma {:induction false} ThenInsert(cfg: Config, s: Spawn, k: nat, n: nat, before: seq<Move>, v: World, used: nat)
    returns (moves: seq<Move>, w: World)
    requires n <= k && v.between == Copies(s, k) && Reaches(cfg, s.parent, k, before, v) && NamedBelow(v, used)
    ensures Reaches(cfg, s.parent, k, moves, w) && w.between == Copies(s, k - n) && NamedBelow(w, used + n)
    ensures Running(w, s.parent) == Running(v, s.parent) + n
  {
    hide Reaches, Running, NamedBelow;
    if n == 0 {
      moves, w := before, v;
    } else {
      moves, w := ThenInsert(cfg, s, k, n - 1, before, v, used);
      moves, w := FirstInserts(cfg, s, k, k - n, moves, w, used + n - 1);
    }
  }

  /** As long as the limit leaves one place free, spawns one after the other all get in. */
  lemma {:induction false} OneByOne(cfg: Config, s: Spawn, k: nat, n: nat) returns (moves: seq<Move>, w: World)
    requires Allowed(cfg, s) && 1 <= k && n <= Room(cfg)
    ensures Reaches(cfg, s.parent, k, moves, w) && w.between == [] && NamedBelow(w, n)
    ensures Running(w, s.parent) == n && (cfg.maxChildren < 1 ==> w == Start())
  {
    hide Running;
    if n == 0 {
      moves, w := [], Start();
      StartBooked(s.parent);
    } else {
      hide Reaches, NamedBelow;
      moves, w := OneByOne(cfg, s, k, n - 1);
      MayStill(cfg, s, w);
      CopiesOverlap(s, 1);
      assert Copies(s, 0) == [];
      var v := w.(between := Copies(s, 1));
      moves := AllPassFirst(cfg, s, k, 1, moves, w);
      assert NamedBelow(v, n - 1) by { SameUsed(w, v, n - 1); }
      SameRunning(w, v, s.parent);
      moves, w := FirstInserts(cfg, s, k, 0, moves, v, n - 1);
    }
  }

  lemma SameUsed(v: World, w: World, n: nat)
    requires NamedBelow(v, n) && w.used == v.used
    ensures NamedBelow(w, n)
  {
  }

  /** The bound is reached: with the limit filled up but for one place, k spawns that all check before
      any of them inserts its run get in, for every k >= 1 and every limit. */
  lemma BoundReached(cfg: Config, s: Spawn, k: nat) returns (moves: seq<Move>, w: World)
    requires Allowed(cfg, s) && k >= 1
    ensures Reaches(cfg, s.parent, k, moves, w) && w.between == [] && Running(w, s.parent) == Room(cfg) + k
  {
    hide Reaches, Running, NamedBelow;
    var room := Room(cfg);
    var filled;
    moves, filled := OneByOne(cfg, s, k, room);
    MayStill(cfg, s, filled);
    moves := AllPassFirst(cfg, s, k, k, moves, filled);
    var v := filled.(between := Copies(s, k));
    SameUsed(filled, v, room);
    SameRunning(filled, v, s.parent);
    moves, w := ThenInsert(cfg, s, k, k, moves, v, room);
  }
}
