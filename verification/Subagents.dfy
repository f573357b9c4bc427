/** The subagent manager: spawn limits, run states, the index of children, and cleanup. Spawn is two
    steps, because the handler that runs the agent may itself spawn, finish, cancel and clean up
    before it returns; the theorems are about every order of such steps, with run ids that do not
    repeat. */
module Subagents {
  import opened Seqs
  import opened PostingLists

  datatype RunState = Running | Completed | Failed | Cancelled

  datatype Mode = OneShot | Session

  datatype SpawnParams = SpawnParams(task: string, tag: string, agentId: string, model: string, mode: Mode,
                                     cleanup: bool)

  datatype Run = Run(id: string, childKey: string, parent: string, tag: string, model: string, mode: Mode,
                     cleanup: bool, state: RunState, summary: string)

  /** An empty list of allowed agents allows all. */
  datatype Config = Config(maxDepth: int, maxChildren: int, allowed: seq<string>)

  datatype Manager = Manager(runs: map<string, Run>, children: Index<string>)

  /** How the handler that runs the agent came back, if there is one. */
  datatype Handling = NoHandler | Returned(text: string) | Threw(what: string)

  const SHORT := 50

  function Target(p: SpawnParams): string {
    if p.agentId == "" then "default" else p.agentId
  }

  function NewRun(p: SpawnParams, parent: string, id: string, suffix: string): Run {
    Run(id, "agent:" + Target(p) + ":subagent:" + suffix, parent,
        if p.tag != "" then p.tag else if |p.task| > SHORT then p.task[..SHORT] else p.task,
        p.model, p.mode, p.cleanup, Running, "")
  }

  predicate IsActive(runs: map<string, Run>, id: string) {
    id in runs && runs[id].state.Running?
  }

  function Active(runs: map<string, Run>, ids: seq<string>): (n: nat)
    ensures n <= |ids|
  {
    if ids == [] then 0
    else Active(runs, ids[..|ids| - 1]) + (if IsActive(runs, ids[|ids| - 1]) then 1 else 0)
  }

  predicate MaySpawn(m: Manager, cfg: Config, p: SpawnParams, parent: string, depth: int) {
    && depth < cfg.maxDepth
    && (parent in m.children ==> Active(m.runs, m.children[parent]) < cfg.maxChildren)
    && (cfg.allowed == [] || Target(p) in cfg.allowed)
  }

  function Started(m: Manager, r: Run): Manager {
    Manager(m.runs[r.id := r], m.children[r.parent := Posted(m.children, r.parent) + [r.id]])
  }

  function Ended(m: Manager, id: string, state: RunState, summary: string): Manager {
    if id in m.runs then m.(runs := m.runs[id := m.runs[id].(state := state, summary := summary)]) else m
  }

  function CancelledRun(m: Manager, id: string): Manager {
    if IsActive(m.runs, id) then m.(runs := m.runs[id := m.runs[id].(state := Cancelled)]) else m
  }

  /** A run to be cleaned up: asked for at the spawn, and over. */
  predicate Disposable(r: Run) {
    r.cleanup && !r.state.Running?
  }

  function Without(ids: seq<string>, gone: set<string>): seq<string> {
    if ids == [] then []
    else
      var n := |ids| - 1;
      Without(ids[..n], gone) + (if ids[n] in gone then [] else [ids[n]])
  }

  /** The runs `gone` dropped, from the lists of children as well. */
  function Dropped(m: Manager, gone: set<string>): Manager {
    Manager(m.runs - gone, map parent | parent in m.children :: Without(m.children[parent], gone))
  }

  function DisposableIds(m: Manager): set<string> {
    set id | id in m.runs && Disposable(m.runs[id])
  }

  function CleanedUp(m: Manager): Manager {
    Dropped(m, DisposableIds(m))
  }

  /** Every run stands exactly once in the list of its own parent and in no other list. */
  ghost predicate Indexed(m: Manager) {
    forall parent, id :: Count(m.children, parent, id) == if id in m.runs && m.runs[id].parent == parent then 1 else 0
  }

  ghost predicate FiledById(m: Manager) {
    forall id :: id in m.runs ==> m.runs[id].id == id
  }

  class SubagentManager {
    var config: Config
    var runs: map<string, Run>
    var children: Index<string>

    function View(): Manager
      reads this
    {
      Manager(runs, children)
    }

    constructor (config: Config)
      ensures View() == Manager(map[], map[]) && this.config == config
    {
      this.config := config;
      runs, children := map[], map[];
    }

    method CountActive(ids: seq<string>) returns (active: nat)
      ensures active == Active(runs, ids)
    {
      active := 0;
      for i := 0 to |ids|
        invariant active == Active(runs, ids[..i])
      {
        assert ids[..i + 1][..i] == ids[..i];
        if ids[i] in runs && runs[ids[i]].state.Running? {
          active := active + 1;
        }
      }
      Whole(ids);
    }

    /** The checks at the beginning of Spawn, with the one lock they take. */
    method CheckLimits(p: SpawnParams, parent: string, depth: int) returns (ok: bool)
      ensures ok <==> MaySpawn(View(), config, p, parent, depth)
    {
      if depth >= config.maxDepth {
        return false;
      }
      if parent in children {
        var active := CountActive(children[parent]);
        if active >= config.maxChildren {
          return false;
        }
      }
      var target := if p.agentId == "" then "default" else p.agentId;
      return config.allowed == [] || target in config.allowed;
    }

    /** Under a second lock the new run is recorded. */
    method Insert(p: SpawnParams, parent: string, id: string, suffix: string)
      modifies this`runs, this`children
      ensures View() == Started(old(View()), NewRun(p, parent, id, suffix))
    {
      runs := runs[id := NewRun(p, parent, id, suffix)];
      children := children[parent := Posted(children, parent) + [id]];
    }

    /** The first half of a Spawn that nothing interrupts, up to the handler. What the handler does,
        further spawns included, comes between this and Settle. */
    method Begin(p: SpawnParams, parent: string, depth: int, id: string, suffix: string) returns (accepted: bool)
      modifies this`runs, this`children
      ensures accepted <==> MaySpawn(old(View()), config, p, parent, depth)
      ensures View() == if accepted then Started(old(View()), NewRun(p, parent, id, suffix)) else old(View())
    {
      accepted := CheckLimits(p, parent, depth);
      if accepted {
        Insert(p, parent, id, suffix);
      }
    }

    /** The second half of Spawn; an empty answer leaves the run running. */
    method Settle(id: string, h: Handling) returns (ok: bool)
      modifies this`runs
      ensures ok <==> !h.Threw?
      ensures View() == match h
                        case NoHandler => old(View())
                        case Returned(text) =>
                          if text == "" then old(View()) else Ended(old(View()), id, Completed, text)
                        case Threw(what) => Ended(old(View()), id, Failed, "Error: " + what)
    {
      match h {
        case NoHandler => return true;
        case Returned(text) =>
          if text != "" {
            CompleteRun(id, text);
          }
          return true;
        case Threw(what) =>
          FailRun(id, what);
          return false;
      }
    }

    method CompleteRun(id: string, summary: string)
      modifies this`runs
      ensures View() == Ended(old(View()), id, Completed, summary)
    {
      if id in runs {
        runs := runs[id := runs[id].(state := Completed, summary := summary)];
      }
    }

    method FailRun(id: string, error: string)
      modifies this`runs
      ensures View() == Ended(old(View()), id, Failed, "Error: " + error)
    {
      if id in runs {
        runs := runs[id := runs[id].(state := Failed, summary := "Error: " + error)];
      }
    }

    method CancelRun(id: string) returns (ok: bool)
      modifies this`runs
      ensures ok <==> IsActive(old(runs), id)
      ensures View() == CancelledRun(old(View()), id)
    {
      if id !in runs || !runs[id].state.Running? {
        return false;
      }
      runs := runs[id := runs[id].(state := Cancelled)];
      return true;
    }

    method FindDisposable() returns (doomed: seq<string>)
      ensures Distinct(doomed) && forall id :: id in doomed <==> id in runs && Disposable(runs[id])
    {
      doomed := [];
      var left := runs.Keys;
      while left != {}
        invariant left <= runs.Keys && Distinct(doomed)
        invariant forall id :: id in doomed <==> id in runs && id !in left && Disposable(runs[id])
        decreases |left|
      {
        if forall id :: id !in left {
          NoMembers(left);
        }
        var id :| id in left;
        left := left - {id};
        if runs[id].cleanup && (runs[id].state.Completed? || runs[id].state.Failed? || runs[id].state.Cancelled?) {
          doomed := doomed + [id];
        }
      }
    }

    method CleanupCompleted() returns (removed: nat)
      requires Indexed(View())
      modifies this`runs, this`children
      ensures View() == CleanedUp(old(View()))
      ensures removed == |DisposableIds(old(View()))|
    {
      hide Indexed, Without;
      var doomed := FindDisposable();
      ghost var m := View();
      NothingDropped(m);
      assert Elements(doomed[..0]) == {};
      for i := 0 to |doomed|
        invariant View() == Dropped(m, Elements(doomed[..i]))
      {
        ghost var gone := Elements(doomed[..i]);
        var id := doomed[i];
        ElementsSnoc(doomed, i);
        DropOneMore(m, gone, id);
        if id in runs {
          var parent := runs[id].parent;
          if parent in children {
            children := children[parent := Erased(children[parent], id)];
          }
          runs := runs - {id};
        }
      }
      Whole(doomed);
      assert Elements(doomed) == DisposableIds(m);
      SizeOf(doomed, DisposableIds(m));
      removed := |doomed|;
    }
  }

  function Elements(s: seq<string>): set<string> {
    set x | x in s
  }

  lemma ElementsSnoc(s: seq<string>, i: nat)
    requires i < |s| && Distinct(s)
    ensures Elements(s[..i + 1]) == Elements(s[..i]) + {s[i]} && s[i] !in Elements(s[..i]) && s[i] in s
  {
    SplitAt(s, i);
  }

  lemma SizeOf(s: seq<string>, elements: set<string>)
    requires Distinct(s) && forall id :: id in s <==> id in elements
    ensures |s| == |elements|
    decreases s
  {
    if s == [] {
      NoMembers(elements);
    } else {
      var n := |s| - 1;
      forall id ensures id in s[..n] <==> id in elements - {s[n]} {
        assert id in s <==> id in s[..n] || id == s[n];
      }
      SizeOf(s[..n], elements - {s[n]});
    }
  }

  lemma {:induction false} WithoutOneMore(ids: seq<string>, gone: set<string>, id: string)
    ensures Without(ids, gone + {id}) == Erased(Without(ids, gone), id)
    ensures id !in ids ==> Without(ids, gone + {id}) == Without(ids, gone)
  {
    if ids != [] {
      var n := |ids| - 1;
      WithoutOneMore(ids[..n], gone, id);
      ErasedConcat(Without(ids[..n], gone), if ids[n] in gone then [] else [ids[n]], id);
    }
  }

  lemma {:induction false} ErasedConcat(a: seq<string>, b: seq<string>, id: string)
    ensures Erased(a + b, id) == Erased(a, id) + Erased(b, id)
  {
    if a == [] {
      assert a + b == b;
    } else {
      ErasedConcat(a[1..], b, id);
      Uncons(a, b);
      Assoc(if a[0] == id then [] else [a[0]], Erased(a[1..], id), Erased(b, id));
    }
  }

  lemma {:induction false} WithoutNone(ids: seq<string>)
    ensures Without(ids, {}) == ids
  {
    if ids != [] {
      WithoutNone(ids[..|ids| - 1]);
    }
  }

  lemma NothingDropped(m: Manager)
    ensures Dropped(m, {}) == m
  {
    forall parent | parent in m.children ensures Without(m.children[parent], {}) == m.children[parent] {
      WithoutNone(m.children[parent]);
    }
  }

  lemma InOwnList(m: Manager, parent: string, id: string)
    requires Indexed(m)
    ensures id in Posted(m.children, parent) <==> id in m.runs && m.runs[id].parent == parent
  {
    assert Count(m.children, parent, id) == if id in m.runs && m.runs[id].parent == parent then 1 else 0;
  }

  lemma DropOneMore(m: Manager, gone: set<string>, id: string)
    requires Indexed(m) && id in m.runs && id !in gone
    ensures var before, after, parent := Dropped(m, gone), Dropped(m, gone + {id}), m.runs[id].parent;
            && id in before.runs && before.runs[id].parent == parent && parent in before.children
            && after.runs == before.runs - {id}
            && after.children == before.children[parent := Erased(before.children[parent], id)]
  {
    hide Indexed, Without;
    var before, after, own := Dropped(m, gone), Dropped(m, gone + {id}), m.runs[id].parent;
    InOwnList(m, own, id);
    assert after.runs == before.runs - {id} by {
      DropTwice(m.runs, gone, id);
    }
    forall parent | parent in m.children
      ensures after.children[parent] ==
              if parent == own then Erased(before.children[parent], id) else before.children[parent]
    {
      InOwnList(m, parent, id);
      WithoutOneMore(m.children[parent], gone, id);
    }
    SameMap(after.children, before.children[own := Erased(before.children[own], id)]);
  }

  lemma DropTwice(runs: map<string, Run>, gone: set<string>, id: string)
    ensures runs - (gone + {id}) == runs - gone - {id}
  {
  }

  // ---------------------------------------------------------------------
  // Every sequence of operations
  // ---------------------------------------------------------------------

  /** The atomic steps. What a handler does between the two halves of its Spawn are steps like any
      other. The depth of a spawn counts from 0. */
  datatype Action =
    | Begin(p: SpawnParams, parent: string, depth: nat, id: string, suffix: string)
    | Complete(id: string, summary: string)
    | Fail(id: string, error: string)
    | Cancel(id: string)
    | Cleanup

  function Step(cfg: Config, m: Manager, a: Action): Manager {
    match a
    case Begin(p, parent, depth, id, suffix) =>
      if MaySpawn(m, cfg, p, parent, depth) then Started(m, NewRun(p, parent, id, suffix)) else m
    case Complete(id, summary) => Ended(m, id, Completed, summary)
    case Fail(id, error) => Ended(m, id, Failed, "Error: " + error)
    case Cancel(id) => CancelledRun(m, id)
    case Cleanup => CleanedUp(m)
  }

  function After(cfg: Config, actions: seq<Action>): Manager {
    if actions == [] then Manager(map[], map[])
    else Step(cfg, After(cfg, actions[..|actions| - 1]), actions[|actions| - 1])
  }

  /** The generated run ids never repeat. */
  ghost predicate FreshIds(actions: seq<Action>) {
    forall i, j :: 0 <= i < j < |actions| && actions[i].Begin? && actions[j].Begin? ==> actions[i].id != actions[j].id
  }

  /** The limit on the running children of one parent. */
  function Limit(cfg: Config): int {
    if cfg.maxChildren < 1 then 1 else cfg.maxChildren
  }

  ghost predicate Bounded(cfg: Config, m: Manager) {
    forall parent :: Active(m.runs, Posted(m.children, parent)) <= Limit(cfg)
  }

  ghost predicate Sound(cfg: Config, m: Manager) {
    Indexed(m) && FiledById(m) && Bounded(cfg, m)
  }

  lemma {:induction false} ActiveFalls(before: map<string, Run>, after: map<string, Run>, ids: seq<string>)
    requires forall id :: id in ids && IsActive(after, id) ==> IsActive(before, id)
    ensures Active(after, ids) <= Active(before, ids)
  {
    if ids != [] {
      var n := |ids| - 1;
      assert ids == ids[..n] + [ids[n]];
      assert ids[n] in ids;
      hide IsActive;
      ActiveFalls(before, after, ids[..n]);
    }
  }

  lemma ActiveSnoc(runs: map<string, Run>, ids: seq<string>, id: string)
    ensures Active(runs, ids + [id]) == Active(runs, ids) + (if IsActive(runs, id) then 1 else 0)
  {
    assert (ids + [id])[..|ids|] == ids;
  }

  lemma {:induction false} ActiveWithout(runs: map<string, Run>, ids: seq<string>, gone: set<string>)
    ensures Active(runs, Without(ids, gone)) <= Active(runs, ids)
  {
    if ids != [] {
      var n := |ids| - 1;
      ActiveWithout(runs, ids[..n], gone);
      var rest := Without(ids[..n], gone);
      assert rest + [] == rest;
      ActiveSnoc(runs, rest, ids[n]);
    }
  }

  lemma BeginKeeps(cfg: Config, m: Manager, p: SpawnParams, parent: string, depth: int, id: string, suffix: string)
    requires Sound(cfg, m) && id !in m.runs && MaySpawn(m, cfg, p, parent, depth)
    ensures Sound(cfg, Started(m, NewRun(p, parent, id, suffix)))
  {
    hide Indexed, Bounded, NewRun, Active;
    var r := NewRun(p, parent, id, suffix);
    NewRunIs(p, parent, id, suffix);
    BeginIndexed(m, r);
    forall other ensures Active(Started(m, r).runs, Posted(Started(m, r).children, other)) <= Limit(cfg) {
      BeginBound(cfg, m, r, other);
    }
    BoundedAll(cfg, Started(m, r));
  }

  lemma BeginBound(cfg: Config, m: Manager, r: Run, other: string)
    requires Indexed(m) && Bounded(cfg, m) && r.id !in m.runs
    requires r.parent in m.children ==> Active(m.runs, m.children[r.parent]) < cfg.maxChildren
    ensures Active(Started(m, r).runs, Posted(Started(m, r).children, other)) <= Limit(cfg)
  {
    hide Indexed, Bounded, IsActive;
    var after, list := Started(m, r), Posted(m.children, other);
    ListBound(cfg, m, other);
    InOwnList(m, other, r.id);
    assert forall id :: id in list && IsActive(after.runs, id) ==> IsActive(m.runs, id) by {
      OthersAsActive(m, r);
    }
    ActiveFalls(m.runs, after.runs, list);
    ActiveSnoc(after.runs, list, r.id);
  }

  lemma OthersAsActive(m: Manager, r: Run)
    ensures forall id :: id != r.id ==> (IsActive(Started(m, r).runs, id) <==> IsActive(m.runs, id))
  {
  }

  /** What is recorded of a spawn: its label, or else the first 50 characters of its task, a session key
      made of the agent it is for, and the rest as it was asked for. */
  lemma SpawnRecorded(p: SpawnParams, parent: string, id: string, suffix: string)
    ensures var r, agent := NewRun(p, parent, id, suffix), if p.agentId == "" then "default" else p.agentId;
            && r.id == id && r.parent == parent && r.childKey == "agent:" + agent + ":subagent:" + suffix
            && r.model == p.model && r.mode == p.mode && r.cleanup == p.cleanup && r.state == Running && r.summary == ""
            && (p.tag != "" ==> r.tag == p.tag)
            && (p.tag == "" ==> r.tag <= p.task && |r.tag| == if |p.task| < 50 then |p.task| else 50)
  {
  }

  lemma NewRunIs(p: SpawnParams, parent: string, id: string, suffix: string)
    ensures var r := NewRun(p, parent, id, suffix); r.id == id && r.parent == parent && r.state.Running?
  {
  }

  lemma ListBound(cfg: Config, m: Manager, parent: string)
    requires Bounded(cfg, m)
    ensures Active(m.runs, Posted(m.children, parent)) <= Limit(cfg)
  {
  }

  lemma BoundedAll(cfg: Config, m: Manager)
    requires forall parent :: Active(m.runs, Posted(m.children, parent)) <= Limit(cfg)
    ensures Bounded(cfg, m)
  {
  }

  lemma BeginIndexed(m: Manager, r: Run)
    requires Indexed(m) && r.id !in m.runs
    ensures Indexed(Started(m, r))
  {
    var after := Started(m, r);
    forall parent, id
      ensures Count(after.children, parent, id) == if id in after.runs && after.runs[id].parent == parent then 1 else 0
    {
      assert Count(m.children, parent, id) == if id in m.runs && m.runs[id].parent == parent then 1 else 0;
      assert Posted(after.children, parent) ==
             Posted(m.children, parent) + (if parent == r.parent then [r.id] else []);
    }
  }

  /** Replacing a run by one of the same parent and id that is not running. */
  lemma EndKeeps(cfg: Config, m: Manager, id: string, r: Run)
    requires Sound(cfg, m) && id in m.runs
    requires r.id == id && r.parent == m.runs[id].parent && !r.state.Running?
    ensures Sound(cfg, m.(runs := m.runs[id := r]))
  {
    var after := m.(runs := m.runs[id := r]);
    forall parent ensures Active(after.runs, Posted(after.children, parent)) <= Limit(cfg) {
      ListBound(cfg, m, parent);
      ActiveFalls(m.runs, after.runs, Posted(m.children, parent));
    }
  }

  lemma {:induction false} WithoutCount(ids: seq<string>, gone: set<string>, id: string)
    ensures multiset(Without(ids, gone))[id] == if id in gone then 0 else multiset(ids)[id]
  {
    if ids != [] {
      var n := |ids| - 1;
      WithoutCount(ids[..n], gone, id);
      assert ids == ids[..n] + [ids[n]];
    }
  }

  lemma DroppedPosted(m: Manager, gone: set<string>, parent: string)
    ensures Posted(Dropped(m, gone).children, parent) == Without(Posted(m.children, parent), gone)
  {
  }

  lemma DropIndexed(m: Manager, gone: set<string>)
    requires Indexed(m)
    ensures Indexed(Dropped(m, gone))
  {
    var after := Dropped(m, gone);
    forall parent, id
      ensures Count(after.children, parent, id) == if id in after.runs && after.runs[id].parent == parent then 1 else 0
    {
      assert Count(m.children, parent, id) == if id in m.runs && m.runs[id].parent == parent then 1 else 0;
      DroppedPosted(m, gone, parent);
      WithoutCount(Posted(m.children, parent), gone, id);
    }
  }

  lemma DropKeeps(cfg: Config, m: Manager, gone: set<string>)
    requires Sound(cfg, m)
    ensures Sound(cfg, Dropped(m, gone))
  {
    hide Indexed, Bounded;
    DropIndexed(m, gone);
    var after := Dropped(m, gone);
    forall parent ensures Active(after.runs, Posted(after.children, parent)) <= Limit(cfg) {
      ListBound(cfg, m, parent);
      DroppedPosted(m, gone, parent);
      ActiveWithout(m.runs, Posted(m.children, parent), gone);
      ActiveFalls(m.runs, after.runs, Posted(after.children, parent));
    }
    BoundedAll(cfg, after);
  }

  lemma StepKeeps(cfg: Config, m: Manager, a: Action)
    requires Sound(cfg, m) && (a.Begin? ==> a.id !in m.runs)
    ensures Sound(cfg, Step(cfg, m, a))
  {
    hide Sound, Dropped, NewRun, MaySpawn;
    match a
    case Begin(p, parent, depth, id, suffix) =>
      if MaySpawn(m, cfg, p, parent, depth) {
        BeginKeeps(cfg, m, p, parent, depth, id, suffix);
      }
    case Cleanup => DropKeeps(cfg, m, DisposableIds(m));
    case Complete(id, summary) => EndedKeeps(cfg, m, id, Completed, summary);
    case Fail(id, error) => EndedKeeps(cfg, m, id, Failed, "Error: " + error);
    case Cancel(id) => EndedKeeps(cfg, m, id, Cancelled, if id in m.runs then m.runs[id].summary else "");
  }

  lemma EndedKeeps(cfg: Config, m: Manager, id: string, state: RunState, summary: string)
    requires Sound(cfg, m) && !state.Running?
    ensures Sound(cfg, Ended(m, id, state, summary))
  {
    if id in m.runs {
      EndKeeps(cfg, m, id, m.runs[id].(state := state, summary := summary));
    }
  }

  /** The run ids given out so far. */
  ghost predicate Given(actions: seq<Action>, id: string) {
    exists i :: 0 <= i < |actions| && actions[i].Begin? && actions[i].id == id
  }

  lemma GivenSnoc(actions: seq<Action>, id: string)
    requires actions != []
    ensures var n := |actions| - 1;
            Given(actions, id) <==> Given(actions[..n], id) || (actions[n].Begin? && actions[n].id == id)
  {
    var n := |actions| - 1;
    if Given(actions[..n], id) {
      var i :| 0 <= i < n && actions[..n][i].Begin? && actions[..n][i].id == id;
      assert actions[i].Begin? && actions[i].id == id;
    }
    if Given(actions, id) {
      var i :| 0 <= i < |actions| && actions[i].Begin? && actions[i].id == id;
      assert i < n ==> actions[..n][i].id == id;
    }
  }

  /** After any steps, nested spawns included: every run stands once in its own parent's list and
      nowhere else, and no parent has more running children than the limit. */
  lemma {:induction false} AlwaysSound(cfg: Config, actions: seq<Action>)
    requires FreshIds(actions)
    ensures Sound(cfg, After(cfg, actions))
    ensures forall id :: id in After(cfg, actions).runs ==> Given(actions, id)
  {
    if actions == [] {
      EmptySound(cfg);
    } else {
      hide Sound, Step, Given;
      var n := |actions| - 1;
      var m := After(cfg, actions[..n]);
      AlwaysSound(cfg, actions[..n]);
      if actions[n].Begin? {
        NotGivenBefore(actions, n);
      }
      StepKeeps(cfg, m, actions[n]);
      forall id | id in After(cfg, actions).runs ensures Given(actions, id) {
        GivenSnoc(actions, id);
        StepRuns(cfg, m, actions[n], id);
      }
    }
  }

  lemma EmptySound(cfg: Config)
    ensures Sound(cfg, Manager(map[], map[]))
  {
  }

  lemma NotGivenBefore(actions: seq<Action>, n: nat)
    requires FreshIds(actions) && n < |actions| && actions[n].Begin?
    ensures !Given(actions[..n], actions[n].id)
  {
    assert forall i :: 0 <= i < n ==> actions[..n][i] == actions[i];
  }

  /** A step adds no run but the one it starts, and starts none that was over. */
  lemma StepRuns(cfg: Config, m: Manager, a: Action, id: string)
    ensures id in Step(cfg, m, a).runs ==> id in m.runs || (a.Begin? && a.id == id)
    ensures IsActive(Step(cfg, m, a).runs, id) ==> IsActive(m.runs, id) || (a.Begin? && a.id == id)
  {
    hide MaySpawn, Without;
  }

  /** A run that is over, or cleaned up, never runs again. */
  lemma {:induction false} NeverRestarts(cfg: Config, actions: seq<Action>, k: nat, id: string)
    requires FreshIds(actions) && k <= |actions| && Given(actions[..k], id)
    requires !IsActive(After(cfg, actions[..k]).runs, id)
    ensures !IsActive(After(cfg, actions).runs, id)
    decreases |actions|
  {
    if k == |actions| {
      Whole(actions);
    } else {
      hide Step, Given, IsActive;
      var n := |actions| - 1;
      assert actions[..n][..k] == actions[..k];
      NeverRestarts(cfg, actions[..n], k, id);
      StepRuns(cfg, After(cfg, actions[..n]), actions[n], id);
      GivenPrefix(actions, k, n, id);
      if actions[n].Begin? && actions[n].id == id {
        NotGivenBefore(actions, n);
      }
    }
  }

  lemma GivenPrefix(actions: seq<Action>, k: nat, n: nat, id: string)
    requires k <= n <= |actions| && Given(actions[..k], id)
    ensures Given(actions[..n], id)
  {
    var i :| 0 <= i < k && actions[..k][i].Begin? && actions[..k][i].id == id;
    assert actions[..n][i].Begin? && actions[..n][i].id == id;
  }

  /** The running children of a parent, wherever they are listed. */
  function RunningChildren(m: Manager, parent: string): set<string> {
    set id | id in m.runs && m.runs[id].parent == parent && m.runs[id].state == Running
  }

  lemma {:induction false} ActiveIsSet(runs: map<string, Run>, ids: seq<string>, active: set<string>)
    requires Distinct(ids) && forall id :: id in active <==> id in ids && IsActive(runs, id)
    ensures Active(runs, ids) == |active|
    decreases |ids|
  {
    hide IsActive;
    if ids == [] {
      NoMembers(active);
    } else {
      var n := |ids| - 1;
      assert ids == ids[..n] + [ids[n]];
      forall id ensures id in active - {ids[n]} <==> id in ids[..n] && IsActive(runs, id) {
        assert id in ids <==> id in ids[..n] || id == ids[n];
      }
      ActiveIsSet(runs, ids[..n], active - {ids[n]});
    }
  }

  lemma {:induction false} OnceEach(ids: seq<string>)
    requires forall id :: multiset(ids)[id] <= 1
    ensures Distinct(ids)
    decreases |ids|
  {
    if ids != [] {
      var n := |ids| - 1;
      assert ids == ids[..n] + [ids[n]];
      assert multiset(ids) == multiset(ids[..n]) + multiset([ids[n]]);
      assert forall id :: multiset(ids[..n])[id] <= multiset(ids)[id];
      OnceEach(ids[..n]);
      assert ids[n] !in multiset(ids[..n]);
    }
  }

  lemma ActiveIsRunning(m: Manager, parent: string)
    requires Indexed(m)
    ensures Active(m.runs, Posted(m.children, parent)) == |RunningChildren(m, parent)|
  {
    var ids := Posted(m.children, parent);
    forall id
      ensures multiset(ids)[id] <= 1
      ensures id in RunningChildren(m, parent) <==> id in ids && IsActive(m.runs, id)
    {
      assert Count(m.children, parent, id) == if id in m.runs && m.runs[id].parent == parent then 1 else 0;
      InOwnList(m, parent, id);
    }
    OnceEach(ids);
    ActiveIsSet(m.runs, ids, RunningChildren(m, parent));
  }

  /** A spawn is accepted exactly below the depth limit, for an agent that is allowed, and for a parent
      that has never spawned or has fewer running children than the limit. */
  lemma MaySpawnIff(m: Manager, cfg: Config, p: SpawnParams, parent: string, depth: int)
    requires Indexed(m)
    ensures MaySpawn(m, cfg, p, parent, depth) <==>
            && depth < cfg.maxDepth
            && (cfg.allowed == [] || (if p.agentId == "" then "default" else p.agentId) in cfg.allowed)
            && (parent !in m.children || |RunningChildren(m, parent)| < cfg.maxChildren)
  {
    ActiveIsRunning(m, parent);
  }

  /** However spawns, completions, failures, cancellations and cleanups follow each other, no parent has
      more running children than the limit, or one if the limit is lower. */
  lemma RunningChildrenBounded(cfg: Config, actions: seq<Action>, parent: string)
    requires FreshIds(actions)
    ensures |RunningChildren(After(cfg, actions), parent)| <= if cfg.maxChildren < 1 then 1 else cfg.maxChildren
  {
    AlwaysSound(cfg, actions);
    ActiveIsRunning(After(cfg, actions), parent);
  }

  /** Some spawn can pass the list of allowed agents: the name asked for is never empty. */
  predicate Passable(cfg: Config) {
    cfg.allowed == [] || exists agent :: agent in cfg.allowed && agent != ""
  }

  /** A parent's first spawn is not held to a limit of zero or less. */
  lemma FirstSpawnUnchecked(cfg: Config, p: SpawnParams, parent: string, depth: nat, id: string, suffix: string)
    requires cfg.maxChildren <= 0 && depth < cfg.maxDepth && (cfg.allowed == [] || Target(p) in cfg.allowed)
    ensures var m := After(cfg, [Begin(p, parent, depth, id, suffix)]); Active(m.runs, Posted(m.children, parent)) == 1
  {
    var a := Begin(p, parent, depth, id, suffix);
    assert [a][..0] == [];
    assert After(cfg, [a]) == Step(cfg, Manager(map[], map[]), a);
    assert Posted(After(cfg, [a]).children, parent) == [] + [id] == [id];
    assert Active(After(cfg, [a]).runs, [id][..0]) == 0;
  }

  ghost predicate HasNothing(m: Manager) {
    m.runs == map[] && m.children == map[]
  }

  /** Some spawn of some depth passes the checks that do not look at the children. */
  predicate CanSpawn(cfg: Config) {
    cfg.maxDepth >= 1 && Passable(cfg)
  }

  /** Where no spawn can pass, nothing ever runs. */
  lemma {:induction false} NothingRuns(cfg: Config, actions: seq<Action>)
    requires !CanSpawn(cfg)
    ensures HasNothing(After(cfg, actions))
  {
    if actions != [] {
      var n := |actions| - 1;
      NothingRuns(cfg, actions[..n]);
      NothingStays(cfg, After(cfg, actions[..n]), actions[n]);
    }
  }

  lemma NothingStays(cfg: Config, m: Manager, a: Action)
    requires !CanSpawn(cfg) && HasNothing(m)
    ensures HasNothing(Step(cfg, m, a))
  {
  }

  /** Every run keeps every parent at most at the configured number of running children. */
  ghost predicate LimitHolds(cfg: Config) {
    forall actions, parent :: FreshIds(actions) ==> RunningWithin(cfg, actions, parent)
  }

  ghost predicate RunningWithin(cfg: Config, actions: seq<Action>, parent: string) {
    var m := After(cfg, actions);
    Active(m.runs, Posted(m.children, parent)) <= if cfg.maxChildren < 0 then 0 else cfg.maxChildren
  }

  /** The configured limit holds in every run exactly when it is at least 1, or no depth is allowed,
      or no spawn can pass the list of allowed agents. */
  lemma LimitHoldsIff(cfg: Config)
    ensures LimitHolds(cfg) <==> cfg.maxChildren >= 1 || cfg.maxDepth <= 0 || !Passable(cfg)
  {
    hide Sound, FreshIds;
    if cfg.maxChildren >= 1 || !CanSpawn(cfg) {
      forall actions, parent | FreshIds(actions) ensures RunningWithin(cfg, actions, parent) {
        if cfg.maxChildren >= 1 {
          AlwaysSound(cfg, actions);
          assert Bounded(cfg, After(cfg, actions)) by { SoundBounded(cfg, After(cfg, actions)); }
        } else {
          NothingRuns(cfg, actions);
        }
      }
    } else {
      var agent: string := "";
      if cfg.allowed != [] {
        agent :| agent in cfg.allowed && agent != "";
      }
      var p := SpawnParams("", "", agent, "", OneShot, false);
      var actions := [Begin(p, "", 0, "", "")];
      FirstSpawnUnchecked(cfg, p, "", 0, "", "");
      assert FreshIds(actions) by { OneIsFresh(actions); }
      assert !RunningWithin(cfg, actions, "");
    }
  }

  lemma SoundBounded(cfg: Config, m: Manager)
    requires Sound(cfg, m)
    ensures Bounded(cfg, m)
  {
  }

  lemma OneIsFresh(actions: seq<Action>)
    requires |actions| == 1
    ensures FreshIds(actions)
  {
  }

  /** Cleaning up removes exactly the flagged runs that are over, keeps the rest as they were, and
      keeps the order of every list. */
  lemma CleanupExact(m: Manager, id: string)
    requires Indexed(m)
    ensures id in CleanedUp(m).runs <==> id in m.runs && !(m.runs[id].cleanup && m.runs[id].state != Running)
    ensures id in CleanedUp(m).runs ==> CleanedUp(m).runs[id] == m.runs[id]
    ensures Indexed(CleanedUp(m))
    ensures forall parent ::
              Posted(CleanedUp(m).children, parent) == Without(Posted(m.children, parent), DisposableIds(m))
  {
    hide Indexed, Without;
    DropIndexed(m, DisposableIds(m));
    forall parent
      ensures Posted(CleanedUp(m).children, parent) == Without(Posted(m.children, parent), DisposableIds(m))
    {
      DroppedPosted(m, DisposableIds(m), parent);
    }
  }
}
