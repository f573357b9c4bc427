/** One session's queue: the commands waiting, the one marked active, and the overflow policies. */
module SessionLanes {
  import opened Seqs
  import opened QueueText

  datatype QueueMode = Collect | Followup | Steer | SteerBacklog | Interrupt

  datatype DropPolicy = Summarize | DropOldest | Reject

  datatype CommandState = Pending | Debouncing | Active | Complete | Dropped

  /** A submitted message. Times are nanoseconds of the steady clock; `params` is the JSON object
      of the request with its values serialised. */
  datatype Command = Command(id: string, sessionKey: string, message: string, params: map<string, string>,
                             connectionId: string, rpcRequestId: string, mode: QueueMode, enqueuedAt: int,
                             state: CommandState)

  datatype Lane = Lane(sessionKey: string, mode: QueueMode, debounceMs: int, cap: int, drop: DropPolicy,
                       pending: seq<Command>, active: Maybe<Command>)

  function Ids(cs: seq<Command>): (ids: seq<string>)
    ensures |ids| == |cs| && forall i :: 0 <= i < |cs| ==> ids[i] == cs[i].id
  {
    seq(|cs|, i requires 0 <= i < |cs| => cs[i].id)
  }

  /** duration_cast to milliseconds truncates toward zero. */
  function ElapsedMs(now: int, since: int): int {
    var ns := now - since;
    if ns >= 0 then ns / 1_000_000 else -((-ns) / 1_000_000)
  }

  // ---------------------------------------------------------------------
  // What each operation does to a lane
  // ---------------------------------------------------------------------

  predicate Ready(l: Lane, now: int) {
    l.pending != [] && l.active.Nothing? && ElapsedMs(now, l.pending[0].enqueuedAt) >= l.debounceMs
  }

  function Activated(l: Lane): Lane
    requires l.pending != []
  {
    l.(pending := l.pending[1..], active := Just(l.pending[0].(state := Active)))
  }

  function SummarizeFront(pending: seq<Command>): seq<Command>
    requires |pending| >= 2
  {
    [pending[0].(message := Absorb(pending[0].message, pending[1].message))] + pending[2..]
  }

  /** One turn of the overflow loop: the queue it leaves and the ids it drops. */
  function OverflowOnce(drop: DropPolicy, pending: seq<Command>): (seq<Command>, seq<string>)
    requires pending != []
  {
    match drop
    case Summarize => if |pending| >= 2 then (SummarizeFront(pending), [pending[1].id]) else (pending, [])
    case DropOldest => (pending[1..], [pending[0].id])
    case Reject => (pending[..|pending| - 1], [pending[|pending| - 1].id])
  }

  function Overflow(drop: DropPolicy, cap: int, pending: seq<Command>): (seq<Command>, seq<string>)
    requires cap >= 0 || pending != []
    decreases |pending|
  {
    if |pending| <= cap then (pending, [])
    else
      var once := OverflowOnce(drop, pending);
      if cap <= 0 then once
      else
        var more := Overflow(drop, cap, once.0);
        (more.0, once.1 + more.1)
  }

  function Steering(pending: seq<Command>): string {
    if pending == [] then ""
    else
      var before := Steering(pending[..|pending| - 1]);
      (if before == "" then "" else before + "\n\n") + pending[|pending| - 1].message
  }

  /** The index of the first pending command with this id, or |pending|. */
  function PlaceOf(pending: seq<Command>, id: string): (n: nat)
    ensures n <= |pending|
    ensures n < |pending| ==> pending[n].id == id
    ensures forall i :: 0 <= i < n ==> pending[i].id != id
  {
    if pending == [] || pending[0].id == id then 0 else 1 + PlaceOf(pending[1..], id)
  }

  function Without(pending: seq<Command>, id: string): seq<Command> {
    var n := PlaceOf(pending, id);
    if n < |pending| then pending[..n] + pending[n + 1..] else pending
  }

  function Interrupted(l: Lane): Lane {
    l.(active := Nothing, pending := if |l.pending| > 1 then l.pending[|l.pending| - 1..] else l.pending)
  }

  predicate Idle(l: Lane) {
    l.active.Nothing? && l.pending == []
  }

  // ---------------------------------------------------------------------
  // The class
  // ---------------------------------------------------------------------

  class SessionLane {
    const sessionKey: string
    var mode: QueueMode
    var debounceMs: int
    var cap: int
    var drop: DropPolicy
    var pending: seq<Command>
    var active: Maybe<Command>

    function View(): Lane
      reads this
    {
      Lane(sessionKey, mode, debounceMs, cap, drop, pending, active)
    }

    constructor (sessionKey: string)
      ensures View() == Lane(sessionKey, Collect, 1000, 20, Summarize, [], Nothing)
    {
      this.sessionKey := sessionKey;
      mode, debounceMs, cap, drop := Collect, 1000, 20, Summarize;
      pending, active := [], Nothing;
    }

    method Configure(mode: QueueMode, debounceMs: int, cap: int, drop: DropPolicy)
      modifies this
      ensures View() == old(View()).(mode := mode, debounceMs := debounceMs, cap := cap, drop := drop)
    {
      this.mode, this.debounceMs, this.cap, this.drop := mode, debounceMs, cap, drop;
    }

    method Enqueue(cmd: Command)
      modifies this
      ensures View() == old(View()).(pending := old(pending) + [cmd])
    {
      pending := pending + [cmd];
    }

    method TryActivate(now: int) returns (cmd: Maybe<Command>)
      modifies this
      ensures cmd.Just? <==> old(Ready(View(), now))
      ensures View() == if cmd.Just? then Activated(old(View())) else old(View())
      ensures cmd.Just? ==> active == cmd
    {
      if pending == [] || active.Just? {
        return Nothing;
      }
      var front := pending[0];
      if ElapsedMs(now, front.enqueuedAt) < debounceMs {
        return Nothing;
      }
      pending := pending[1..];
      active := Just(front.(state := Active));
      return active;
    }

    method CompleteActive() returns (cmd: Maybe<Command>)
      modifies this
      ensures View() == old(View()).(active := Nothing)
      ensures cmd == if old(active).Just? then Just(old(active).value.(state := Complete)) else Nothing
    {
      if active.Nothing? {
        return Nothing;
      }
      cmd := Just(active.value.(state := Complete));
      active := Nothing;
    }

    method ApplyCapOverflow() returns (dropped: seq<string>)
      requires cap >= 0 || pending != []
      modifies this
      ensures View() == old(View().(pending := Overflow(drop, cap, pending).0))
      ensures dropped == old(Overflow(drop, cap, pending).1)
    {
      dropped := [];
      ghost var goal := Overflow(drop, cap, pending);
      while |pending| > cap
        invariant cap >= 0 || (pending != [] && dropped == [])
        invariant View() == old(View()).(pending := pending)
        invariant Overflow(drop, cap, pending).0 == goal.0
        invariant dropped + Overflow(drop, cap, pending).1 == goal.1
        decreases |pending|
      {
        ghost var before, was := pending, dropped;
        match drop {
          case Summarize =>
            if |pending| >= 2 {
              var oldest, second := pending[0], pending[1];
              dropped := dropped + [second.id];
              pending := [oldest.(message := Absorb(oldest.message, second.message))] + pending[2..];
            }
          case DropOldest =>
            dropped := dropped + [pending[0].id];
            pending := pending[1..];
          case Reject =>
            dropped := dropped + [pending[|pending| - 1].id];
            pending := pending[..|pending| - 1];
        }
        assert pending == OverflowOnce(drop, before).0 && dropped == was + OverflowOnce(drop, before).1;
        if cap <= 0 {
          return;
        }
        Assoc(was, OverflowOnce(drop, before).1, Overflow(drop, cap, pending).1);
      }
    }

    method DrainPendingAsSteeringText() returns (text: string)
      modifies this
      ensures View() == old(View()).(pending := [])
      ensures text == Steering(old(pending))
    {
      text := "";
      for i := 0 to |pending|
        invariant unchanged(this)
        invariant text == Steering(pending[..i])
      {
        assert pending[..i + 1][..i] == pending[..i];
        if text != "" {
          text := text + "\n\n";
        }
        text := text + pending[i].message;
      }
      assert pending[..|pending|] == pending;
      pending := [];
    }

    method CancelPending(id: string) returns (found: bool)
      modifies this
      ensures found <==> PlaceOf(old(pending), id) < |old(pending)|
      ensures View() == old(View()).(pending := Without(old(pending), id))
    {
      for i := 0 to |pending|
        invariant unchanged(this)
        invariant forall k :: 0 <= k < i ==> pending[k].id != id
      {
        if pending[i].id == id {
          assert PlaceOf(pending, id) == i;
          pending := pending[..i] + pending[i + 1..];
          return true;
        }
      }
      return false;
    }

    method InterruptActive() returns (aborted: Maybe<string>)
      modifies this
      ensures View() == Interrupted(old(View()))
      ensures aborted == if old(active).Just? then Just(old(active).value.id) else Nothing
    {
      aborted := Nothing;
      if active.Just? {
        aborted := Just(active.value.id);
        active := Nothing;
      }
      while |pending| > 1
        invariant active == Nothing && View() == old(View()).(active := Nothing, pending := pending)
        invariant |pending| <= |old(pending)| && pending == old(pending)[|old(pending)| - |pending|..]
        invariant old(pending) != [] ==> pending != []
      {
        pending := pending[1..];
      }
    }
  }

  // ---------------------------------------------------------------------
  // Overflow in closed form
  // ---------------------------------------------------------------------

  lemma {:induction false} OverflowSize(drop: DropPolicy, cap: int, pending: seq<Command>)
    requires cap >= 1
    ensures |Overflow(drop, cap, pending).0| == if |pending| <= cap then |pending| else cap
    decreases |pending|
  {
    if |pending| > cap {
      OverflowSize(drop, cap, OverflowOnce(drop, pending).0);
    }
  }

  /** "drop-oldest" keeps the newest cap commands, in order, and drops the others oldest first. */
  lemma {:induction false} DropOldestKeepsNewest(cap: int, pending: seq<Command>)
    requires 1 <= cap <= |pending|
    ensures Overflow(DropOldest, cap, pending) ==
            (pending[|pending| - cap..], Ids(pending[..|pending| - cap]))
    decreases |pending|
  {
    if |pending| > cap {
      DropOldestKeepsNewest(cap, pending[1..]);
      assert pending[1..][|pending| - 1 - cap..] == pending[|pending| - cap..];
      assert Ids(pending[..|pending| - cap]) == [pending[0].id] + Ids(pending[1..][..|pending| - 1 - cap]);
    }
  }

  function Reversed<T>(s: seq<T>): (r: seq<T>)
    ensures |r| == |s| && forall i :: 0 <= i < |s| ==> r[i] == s[|s| - 1 - i]
  {
    if s == [] then [] else [s[|s| - 1]] + Reversed(s[..|s| - 1])
  }

  /** "reject" keeps the oldest cap commands, in order, and drops the others newest first. */
  lemma {:induction false} RejectKeepsOldest(cap: int, pending: seq<Command>)
    requires 1 <= cap <= |pending|
    ensures Overflow(Reject, cap, pending) == (pending[..cap], Reversed(Ids(pending[cap..])))
    decreases |pending|
  {
    if |pending| > cap {
      var n := |pending| - 1;
      RejectKeepsOldest(cap, pending[..n]);
      assert pending[..n][..cap] == pending[..cap];
      var ids := Ids(pending[cap..]);
      assert ids[n - cap] == pending[n].id;
      assert ids[..n - cap] == Ids(pending[..n][cap..]);
      assert |ids| - 1 == n - cap;
      assert Reversed(ids) == [pending[n].id] + Reversed(ids[..n - cap]);
    } else {
      assert pending[..cap] == pending && Ids(pending[cap..]) == [];
    }
  }

  // ---------------------------------------------------------------------
  // Summaries over any number of merges
  // ---------------------------------------------------------------------

  function Messages(cs: seq<Command>): (ms: seq<string>)
    ensures |ms| == |cs| && forall i :: 0 <= i < |cs| ==> ms[i] == cs[i].message
  {
    seq(|cs|, i requires 0 <= i < |cs| => cs[i].message)
  }

  /** A message that absorbs others one after the other. */
  function AbsorbAll(message: string, others: seq<string>): string
    decreases others
  {
    if others == [] then message else AbsorbAll(Absorb(message, others[0]), others[1..])
  }

  /** "summarize" merges the excess behind the head into the head ... */
  lemma {:induction false} SummarizeAbsorbs(cap: int, pending: seq<Command>, k: nat)
    requires 1 <= cap <= |pending| && k == |pending| - cap
    ensures Overflow(Summarize, cap, pending).0 ==
            [pending[0].(message := AbsorbAll(pending[0].message, Messages(pending[1..k + 1])))] + pending[k + 1..]
    decreases k
  {
    hide Absorb;
    if k == 0 {
      assert pending == [pending[0]] + pending[1..];
    } else {
      var next := SummarizeFront(pending);
      SummarizeAbsorbs(cap, next, k - 1);
      var rest := pending[2..k + 1];
      assert next[1..k] == rest && next[k..] == pending[k + 1..];
      assert Messages(pending[1..k + 1]) == [pending[1].message] + Messages(rest);
      Cons(pending[1].message, Messages(rest));
    }
  }

  /** ... and drops their ids. */
  lemma {:induction false} SummarizeDrops(cap: int, pending: seq<Command>, k: nat)
    requires 1 <= cap <= |pending| && k == |pending| - cap
    ensures Overflow(Summarize, cap, pending).1 == Ids(pending[1..k + 1])
    decreases k
  {
    hide Absorb;
    if k == 0 {
      assert Ids(pending[1..1]) == [];
    } else {
      var next := SummarizeFront(pending);
      SummarizeDrops(cap, next, k - 1);
      var rest := pending[2..k + 1];
      assert next[1..k] == rest;
      assert Ids(pending[1..k + 1]) == [pending[1].id] + Ids(rest);
    }
  }

  lemma {:induction false} AbsorbAllRendered(parts: seq<string>, others: seq<string>)
    requires parts != [] && |parts| + |others| <= MAX_INT
    requires |parts| == 1 ==> !IsSummary(parts[0])
    ensures AbsorbAll(Rendered(parts), others) == Rendered(parts + others)
    decreases others
  {
    if others == [] {
      assert parts + others == parts;
    } else {
      AbsorbRendered(parts, others[0]);
      AbsorbAllRendered(parts + [others[0]], others[1..]);
      Assoc(parts, [others[0]], others[1..]);
      assert [others[0]] + others[1..] == others;
    }
  }

  /** A head that reads as n messages, over any other commands: one overflow, whatever the excess,
      leaves a head that reads as those n and the messages merged into it. */
  lemma SummarizeRenders(cap: int, head: Command, parts: seq<string>, rest: seq<Command>, k: nat)
    requires cap >= 1 && k == 1 + |rest| - cap && parts != [] && |parts| + k <= MAX_INT
    requires |parts| == 1 ==> !IsSummary(parts[0])
    ensures Overflow(Summarize, cap, [head.(message := Rendered(parts))] + rest).0 ==
            [head.(message := Rendered(parts + Messages(rest[..k])))] + rest[k..]
  {
    hide Overflow, Rendered, AbsorbAll;
    var p := [head.(message := Rendered(parts))] + rest;
    SummarizeAbsorbs(cap, p, k);
    assert p[1..k + 1] == rest[..k] && p[k + 1..] == rest[k..];
    AbsorbAllRendered(parts, Messages(rest[..k]));
  }

  /** The queue after submitting `cs` one by one to an empty lane, overflow applied each time. */
  function Submitted(drop: DropPolicy, cap: int, cs: seq<Command>): seq<Command>
    requires cap >= 1
  {
    if cs == [] then []
    else Overflow(drop, cap, Submitted(drop, cap, cs[..|cs| - 1]) + [cs[|cs| - 1]]).0
  }

  /** The first k commands as one, whose text counts and quotes their k messages. */
  function Condensed(cs: seq<Command>, k: nat): seq<Command>
    requires 1 <= k <= |cs|
  {
    [cs[0].(message := Rendered(Messages(cs[..k])))] + cs[k..]
  }

  lemma CondensedOne(cs: seq<Command>)
    requires cs != []
    ensures Condensed(cs, 1) == cs
  {
    assert Messages(cs[..1]) == [cs[0].message];
  }

  lemma CondensedMore(cs: seq<Command>, k: nat)
    requires 1 <= k < |cs| <= MAX_INT && !IsSummary(cs[0].message)
    ensures |Condensed(cs, k)| == |cs| - k + 1
    ensures Overflow(Summarize, |cs| - k, Condensed(cs, k)).0 == Condensed(cs, k + 1)
  {
    hide Absorb, Rendered;
    var p := Condensed(cs, k);
    var parts := Messages(cs[..k]);
    SummarizeAbsorbs(|cs| - k, p, 1);
    assert p[1..2] == [cs[k]] && p[2..] == cs[k + 1..];
    assert Messages(p[1..2]) == [cs[k].message];
    AbsorbAllRendered(parts, [cs[k].message]);
    assert Messages(cs[..k + 1]) == parts + [cs[k].message];
  }

  lemma CondensedSnoc(cs: seq<Command>, k: nat)
    requires 1 <= k < |cs|
    ensures Condensed(cs[..|cs| - 1], k) + [cs[|cs| - 1]] == Condensed(cs, k)
  {
    assert cs[..|cs| - 1][..k] == cs[..k];
    assert cs[..|cs| - 1][k..] + [cs[|cs| - 1]] == cs[k..];
    Assoc([cs[0].(message := Rendered(Messages(cs[..k])))], cs[..|cs| - 1][k..], [cs[|cs| - 1]]);
  }

  /** n raw submissions under "summarize" leave cap commands; the head's text counts and quotes
      exactly the n - cap + 1 messages it replaced, however many merges it took to build. */
  lemma {:induction false} SummaryReadsItsMessages(cap: int, cs: seq<Command>)
    requires cap >= 1 && 1 <= |cs| <= MAX_INT
    requires !IsSummary(cs[0].message)
    ensures Submitted(Summarize, cap, cs) == Condensed(cs, if |cs| <= cap then 1 else |cs| - cap + 1)
    decreases |cs|
  {
    hide Absorb, Rendered;
    var n := |cs| - 1;
    if n == 0 {
      assert cs[..0] == [] && [] + [cs[0]] == cs;
    } else {
      var k := if n <= cap then 1 else n - cap + 1;
      SummaryReadsItsMessages(cap, cs[..n]);
      CondensedSnoc(cs, k);
      if n >= cap {
        CondensedMore(cs, k);
      }
    }
    CondensedOne(cs);
  }
}
