/** Every step keeps the ledgers balanced; what follows for whole runs. */
module QueueSafety {
  import opened Seqs
  import opened QueueText
  import opened SessionLanes
  import opened CommandQueues
  import opened Subsequences
  import opened QueueRuns

  // ---------------------------------------------------------------------
  // Submitting
  // ---------------------------------------------------------------------

  ghost predicate From(c: Command, pending: seq<Command>) {
    exists b :: b in pending && b.id == c.id && b.sessionKey == c.sessionKey
  }

  lemma SubmitBooks(submitted: seq<string>, activated: seq<string>, l: Lane,
                    flying: multiset<string>, gone: multiset<string>, cmd: Command)
    requires Books(submitted, activated, Ids(l.pending), flying, gone) && cmd.id !in submitted
    ensures var r := SubmitLane(l, cmd);
            && Books(submitted + [cmd.id], activated, Ids(r.0.pending), flying,
                     gone + (if Interrupts(l, cmd.mode) then Cleared(l.pending) else multiset{}) + multiset(r.1))
            && (forall c :: c in r.0.pending ==> c.id !in r.1)
            && (forall c :: c in r.0.pending ==> From(c, l.pending + [cmd]))
  {
    hide Books, Overflow, Cleared;
    var moded := cmd.(mode := EffectiveMode(l, cmd.mode));
    var hit := Interrupts(l, cmd.mode);
    var base := if hit then Interrupted(l) else l;
    var lost := if hit then Cleared(l.pending) else multiset{};
    if hit {
      InterruptLoses(l);
    } else {
      LosesNothing(Ids(l.pending));
    }
    BooksLose(submitted, activated, Ids(l.pending), flying, gone, Ids(base.pending), lost);
    BooksSubmit(submitted, activated, Ids(base.pending), flying, gone + lost, cmd.id);
    var queued := base.pending + [moded];
    assert Ids(queued) == Ids(base.pending) + [cmd.id];
    forall c | c in queued ensures From(c, l.pending + [cmd]) {
      if c == moded {
        assert cmd in l.pending + [cmd];
      } else {
        assert c in l.pending + [cmd];
      }
    }
    if Steers(l, cmd.mode) {
      assert gone + lost + multiset([]) == gone + lost;
    } else {
      OverflowLoses(l.drop, l.cap, queued);
      var r := Overflow(l.drop, l.cap, queued);
      BooksLose(submitted + [cmd.id], activated, Ids(queued), flying, gone + lost, Ids(r.0), multiset(r.1));
      forall c | c in r.0 ensures c.id !in r.1 && From(c, l.pending + [cmd]) {
        IdsMember(r.0, c.id);
        assert c.id in r.1 ==> c.id in multiset(r.1);
        var b :| b in queued && b.id == c.id && b.sessionKey == c.sessionKey;
        assert From(b, l.pending + [cmd]);
      }
    }
  }

  /** What a submission does to the session's own accounts. */
  lemma SubmitOwn(w: World, cmd: Command)
    requires SessionInv(w, cmd.sessionKey) && cmd.id !in w.issued
    ensures var s := cmd.sessionKey; var l, g, v := LaneAt(w.q, s), LogOf(w, s), SubmitStep(w, cmd);
            var r, lost := SubmitLane(l, cmd), if Interrupts(l, cmd.mode) then Cleared(l.pending) else multiset{};
            && l.pending == PendingOf(w.q, s) && PendingOf(v.q, s) == r.0.pending
            && LogOf(v, s).submitted == g.submitted + [cmd.id] && LogOf(v, s).activated == g.activated
            && Gone(LogOf(v, s)) == Gone(g) + lost + multiset(r.1)
            && v.workers == w.workers && v.q.owner == Erased(w.q.owner[cmd.id := s], r.1)
            && cmd.id !in g.submitted
  {
    hide Books, SubmitLane, Cleared, Flying, Interrupts, Counted, Gone;
    var s := cmd.sessionKey;
    var l, g := LaneAt(w.q, s), LogOf(w, s);
    var lost := if Interrupts(l, cmd.mode) then Cleared(l.pending) else multiset{};
    var h := g.(submitted := g.submitted + [cmd.id],
                interrupts := g.interrupts + (if Interrupts(l, cmd.mode) then 1 else 0));
    SameGone(g, h);
    GoneAdds(h, multiset(SubmitLane(l, cmd).1), lost);
  }

  lemma SameGone(g: SessionLog, h: SessionLog)
    requires h == g.(submitted := h.submitted, activated := h.activated, interrupts := h.interrupts, unseen := h.unseen)
    ensures Gone(h) == Gone(g)
  {
  }

  lemma SubmitBalanced(w: World, cmd: Command)
    requires SessionInv(w, cmd.sessionKey) && cmd.id !in w.issued
    ensures Balanced(SubmitStep(w, cmd), cmd.sessionKey)
  {
    hide Books, SubmitLane, Cleared, Flying, Interrupts, Counted, OwnedBy, Issued, Gone, SubmitStep;
    var s := cmd.sessionKey;
    var l, g := LaneAt(w.q, s), LogOf(w, s);
    SubmitOwn(w, cmd);
    SubmitBooks(g.submitted, g.activated, l, Flying(w.workers, s), Gone(g), cmd);
  }

  lemma SubmitOwned(w: World, cmd: Command)
    requires SessionInv(w, cmd.sessionKey) && cmd.id !in w.issued
    ensures OwnedBy(SubmitStep(w, cmd).q, cmd.sessionKey)
  {
    hide Books, SubmitLane, Cleared, Flying, Interrupts, Counted, Issued, Gone, SubmitStep;
    var s := cmd.sessionKey;
    var l, g, v := LaneAt(w.q, s), LogOf(w, s), SubmitStep(w, cmd);
    var r := SubmitLane(l, cmd);
    SubmitOwn(w, cmd);
    SubmitBooks(g.submitted, g.activated, l, Flying(w.workers, s), Gone(g), cmd);
    forall c | c in r.0.pending ensures c.sessionKey == s && c.id in v.q.owner && v.q.owner[c.id] == s {
      assert From(c, l.pending + [cmd]);
      var b :| b in l.pending + [cmd] && b.id == c.id && b.sessionKey == c.sessionKey;
    }
  }

  lemma SubmitCounted(w: World, cmd: Command)
    requires SessionInv(w, cmd.sessionKey) && cmd.id !in w.issued
    ensures Counted(SubmitStep(w, cmd), cmd.sessionKey) && Issued(SubmitStep(w, cmd), cmd.sessionKey)
  {
    hide Books, SubmitLane, Cleared, Flying;
    SubmitMarker(LaneAt(w.q, cmd.sessionKey), cmd);
  }

  lemma SubmitMarker(l: Lane, cmd: Command)
    ensures SubmitLane(l, cmd).0.active == if Interrupts(l, cmd.mode) then Nothing else l.active
  {
  }

  lemma SubmitKeeps(w: World, cmd: Command)
    requires Inv(w) && cmd.id !in w.issued
    ensures Inv(SubmitStep(w, cmd))
  {
    hide SubmitLane, Balanced, Counted, OwnedBy, Issued;
    var v := SubmitStep(w, cmd);
    var key := cmd.sessionKey;
    assert SessionInv(w, key);
    SubmitBalanced(w, cmd);
    SubmitOwned(w, cmd);
    SubmitCounted(w, cmd);
    forall s ensures SessionInv(v, s) {
      if s != key {
        assert SessionInv(w, s);
        SubmitKeepsOther(w, cmd, s);
      }
    }
  }

  lemma SubmitKeepsOther(w: World, cmd: Command, s: string)
    requires SessionInv(w, s) && SessionInv(w, cmd.sessionKey) && s != cmd.sessionKey && cmd.id !in w.issued
    ensures SessionInv(SubmitStep(w, cmd), s)
  {
    hide SubmitLane, Books;
    var v := SubmitStep(w, cmd);
    var key := cmd.sessionKey;
    forall c | c in PendingOf(w.q, s) ensures c.id in v.q.owner && v.q.owner[c.id] == s {
      PendingIssued(w, s, c);
      if c.id in AfterSubmit(w.q, cmd).1 {
        DroppedIssued(w, cmd, c.id);
      }
    }
    SessionUntouched(w, v, s);
  }

  /** A dropped id is the new one or was issued to the session submitted to. */
  lemma DroppedIssued(w: World, cmd: Command, id: string)
    requires SessionInv(w, cmd.sessionKey) && cmd.id !in w.issued
    requires id in AfterSubmit(w.q, cmd).1
    ensures id == cmd.id || (id in w.issued && w.issued[id] == cmd.sessionKey)
  {
    hide Overflow, Interrupted;
    var s := cmd.sessionKey;
    var l, g := LaneAt(w.q, s), LogOf(w, s);
    var r := SubmitLane(l, cmd);
    assert l.pending == PendingOf(w.q, s);
    SubmitBooks(g.submitted, g.activated, l, Flying(w.workers, s), Gone(g), cmd);
    assert id in multiset(r.1);
    assert id in multiset(g.submitted + [cmd.id]);
    assert id in g.submitted + [cmd.id];
  }

  // ---------------------------------------------------------------------
  // Cancelling
  // ---------------------------------------------------------------------

  /** What a cancellation does to the accounts of the session it looks into. */
  lemma CancelOwn(w: World, id: string)
    requires id in w.q.owner
    ensures var s := w.q.owner[id]; var l, g, v := LaneAt(w.q, s), LogOf(w, s), CancelStep(w, id);
            var removed := if PlaceOf(l.pending, id) < |l.pending| then multiset{id} else multiset{};
            && l.pending == PendingOf(w.q, s) && PendingOf(v.q, s) == Without(l.pending, id)
            && LogOf(v, s).submitted == g.submitted && LogOf(v, s).activated == g.activated
            && Gone(LogOf(v, s)) == Gone(g) + removed
            && v.workers == w.workers && v.q.owner == w.q.owner - {id}
  {
    hide Without, Gone;
    GoneAdds(LogOf(w, w.q.owner[id]), multiset{id}, multiset{});
  }

  lemma CancelBalanced(w: World, id: string)
    requires id in w.q.owner && SessionInv(w, w.q.owner[id])
    ensures Balanced(CancelStep(w, id), w.q.owner[id])
  {
    hide Books, Without, Flying, Counted, OwnedBy, Issued, Gone, CancelStep;
    var s := w.q.owner[id];
    var l, g := LaneAt(w.q, s), LogOf(w, s);
    var removed := if PlaceOf(l.pending, id) < |l.pending| then multiset{id} else multiset{};
    CancelOwn(w, id);
    WithoutLoses(l.pending, id);
    BooksLose(g.submitted, g.activated, Ids(l.pending), Flying(w.workers, s), Gone(g), Ids(Without(l.pending, id)),
              removed);
  }

  lemma WithoutRemovesId(pending: seq<Command>, id: string)
    requires Distinct(Ids(pending))
    ensures forall c :: c in Without(pending, id) ==> c.id != id && c in pending
  {
    var n := PlaceOf(pending, id);
    forall c | c in Without(pending, id) ensures c.id != id && c in pending {
      if n < |pending| && c in pending[n + 1..] {
        var i :| 0 <= i < |pending[n + 1..]| && pending[n + 1..][i] == c;
        assert Ids(pending)[n] != Ids(pending)[n + 1 + i];
      }
    }
  }

  /** The id looked for is no longer pending afterwards: ids are pending once. */
  lemma CancelOwned(w: World, id: string)
    requires id in w.q.owner && SessionInv(w, w.q.owner[id])
    ensures OwnedBy(CancelStep(w, id).q, w.q.owner[id])
  {
    hide Books, Without, Flying, Counted, Issued, Gone, CancelStep;
    var s := w.q.owner[id];
    var l, g := LaneAt(w.q, s), LogOf(w, s);
    CancelOwn(w, id);
    BooksPendingDistinct(g.submitted, g.activated, Ids(l.pending), Flying(w.workers, s), Gone(g));
    WithoutRemovesId(l.pending, id);
  }

  lemma CancelCounted(w: World, id: string)
    requires id in w.q.owner && SessionInv(w, w.q.owner[id])
    ensures Counted(CancelStep(w, id), w.q.owner[id]) && Issued(CancelStep(w, id), w.q.owner[id])
  {
    hide Books, Without, Flying;
  }

  lemma CancelKeepsOther(w: World, id: string, s: string)
    requires SessionInv(w, s) && id in w.q.owner && s != w.q.owner[id]
    ensures SessionInv(CancelStep(w, id), s)
  {
    hide Without, Books;
    SessionUntouched(w, CancelStep(w, id), s);
  }

  lemma CancelKeeps(w: World, id: string)
    requires Inv(w)
    ensures Inv(CancelStep(w, id))
  {
    if id in w.q.owner {
      assert SessionInv(w, w.q.owner[id]);
      forall s ensures SessionInv(CancelStep(w, id), s) {
        assert SessionInv(w, s);
        if s != w.q.owner[id] {
          CancelKeepsOther(w, id, s);
        } else {
          CancelBalanced(w, id);
          CancelOwned(w, id);
          CancelCounted(w, id);
        }
      }
    }
  }

  // ---------------------------------------------------------------------
  // Aborting
  // ---------------------------------------------------------------------

  /** What an abort does to the session's own accounts. */
  lemma AbortOwn(w: World, s: string)
    ensures var l, g, v := LaneAt(w.q, s), LogOf(w, s), AbortStep(w, s);
            && l.pending == PendingOf(w.q, s) && l.active == ActiveOf(w.q, s)
            && PendingOf(v.q, s) == Interrupted(l).pending
            && LogOf(v, s).submitted == g.submitted && LogOf(v, s).activated == g.activated
            && Gone(LogOf(v, s)) == Gone(g) + Cleared(l.pending)
            && v.workers == w.workers
            && v.q.owner == if l.active.Just? then w.q.owner - {l.active.value.id} else w.q.owner
  {
    hide Gone, Cleared;
    var g := LogOf(w, s);
    var h := g.(interrupts := g.interrupts + (if ActiveOf(w.q, s).Just? then 1 else 0));
    SameGone(g, h);
    GoneAdds(h, multiset{}, Cleared(PendingOf(w.q, s)));
  }

  lemma AbortBalanced(w: World, s: string)
    requires SessionInv(w, s)
    ensures Balanced(AbortStep(w, s), s)
  {
    hide Books, Interrupted, Flying, Cleared, Counted, OwnedBy, Issued, Gone, AbortStep;
    var l, g := LaneAt(w.q, s), LogOf(w, s);
    AbortOwn(w, s);
    InterruptLoses(l);
    BooksLose(g.submitted, g.activated, Ids(l.pending), Flying(w.workers, s), Gone(g), Ids(Interrupted(l).pending),
              Cleared(l.pending));
  }

  lemma AbortOwned(w: World, s: string)
    requires SessionInv(w, s)
    ensures OwnedBy(AbortStep(w, s).q, s)
  {
    hide Books, Interrupted, Flying, Cleared, Issued, Gone, AbortStep;
    var l, g, v := LaneAt(w.q, s), LogOf(w, s), AbortStep(w, s);
    AbortOwn(w, s);
    InterruptLoses(l);
    forall c | c in PendingOf(v.q, s) ensures c.id in v.q.owner {
      if l.active.Just? && c.id == l.active.value.id {
        BooksActivatedNotPending(g.submitted, g.activated, Ids(l.pending), Flying(w.workers, s), Gone(g), c.id);
        IdsMember(l.pending, c.id);
      }
    }
  }

  lemma AbortCounted(w: World, s: string)
    requires SessionInv(w, s)
    ensures Counted(AbortStep(w, s), s) && Issued(AbortStep(w, s), s)
  {
    hide Books, Interrupted, Flying, Cleared;
    if s in w.q.lanes {
      AbortedLane(w.q.lanes[s]);
    }
  }

  lemma AbortedLane(l: Lane)
    ensures Interrupted(l).active.Nothing?
  {
  }

  lemma AbortKeepsOther(w: World, key: string, s: string)
    requires SessionInv(w, s) && SessionInv(w, key) && s != key
    ensures SessionInv(AbortStep(w, key), s)
  {
    hide Interrupted, Books, Flying, Cleared;
    var v, g := AbortStep(w, key), LogOf(w, key);
    forall c | c in PendingOf(w.q, s) ensures c.id in v.q.owner && v.q.owner[c.id] == s {
      PendingIssued(w, s, c);
      var a := ActiveOf(w.q, key);
      if a.Just? && a.value.id == c.id {
        BooksActivatedNotPending(g.submitted, g.activated, Ids(PendingOf(w.q, key)), Flying(w.workers, key), Gone(g),
                                 c.id);
      }
    }
    SessionUntouched(w, v, s);
  }

  lemma AbortKeeps(w: World, key: string)
    requires Inv(w)
    ensures Inv(AbortStep(w, key))
  {
    hide Balanced, Counted, OwnedBy, Issued, Interrupted;
    assert SessionInv(w, key);
    forall s ensures SessionInv(AbortStep(w, key), s) {
      assert SessionInv(w, s);
      if s != key {
        AbortKeepsOther(w, key, s);
      } else {
        AbortBalanced(w, s);
        AbortOwned(w, s);
        AbortCounted(w, s);
      }
    }
  }

  // ---------------------------------------------------------------------
  // Dispatching
  // ---------------------------------------------------------------------

  lemma DispatchedFacts(l: Lane)
    requires l.pending != []
    ensures DispatchedLane(l).active == Just(l.pending[0].(state := Active))
    ensures DispatchedCommand(l).id == l.pending[0].id && DispatchedCommand(l).sessionKey == l.pending[0].sessionKey
    ensures Loses(Ids(l.pending[1..]), Ids(DispatchedLane(l).pending), multiset(Ids(Drained(l))))
    ensures forall c :: c in DispatchedLane(l).pending ==> c in l.pending[1..]
  {
    var rest := l.pending[1..];
    if Drained(l) != [] {
      LosesCut(Ids(rest), 0, |rest|);
      assert Ids(rest)[..0] + Ids(rest)[|rest|..] == Ids([]);
      assert Ids(rest)[0..|rest|] == Ids(rest);
      assert Drained(l) == rest;
    } else {
      LosesNothing(Ids(rest));
      assert multiset(Ids(Drained(l))) == multiset{};
    }
  }

  /** What one dispatch does to the session's own accounts. */
  lemma DispatchOwn(w: World, s: string, now: int)
    requires SessionInv(w, s) && Dispatches(w.q, s, now)
    ensures var l, g, v := w.q.lanes[s], LogOf(w, s), DispatchOneStep(w, s, now);
            && v.q.lanes == w.q.lanes[s := DispatchedLane(l)]
            && Flying(v.workers, s) == Flying(w.workers, s) + multiset{l.pending[0].id}
            && LogOf(v, s) == g.(activated := g.activated + [l.pending[0].id],
                                 drained := g.drained + multiset(Ids(Drained(l))))
  {
    hide DispatchedLane, DispatchedCommand, Drained, Books, Counted;
    var l, v := w.q.lanes[s], DispatchOneStep(w, s, now);
    var cmd := DispatchedCommand(l);
    DispatchedFacts(l);
    assert l.pending[0] in PendingOf(w.q, s);
    assert v.workers == w.workers + [cmd];
    FlyingConcat(w.workers, [cmd], s);
    FlyingOne(cmd, s);
  }

  lemma DispatchBalanced(w: World, s: string, now: int)
    requires SessionInv(w, s) && Dispatches(w.q, s, now)
    ensures Balanced(DispatchOneStep(w, s, now), s)
  {
    hide DispatchedLane, DispatchedCommand, Drained, Books, Counted, Flying, OwnedBy, Issued, Gone, DispatchOneStep;
    var l, g, v := w.q.lanes[s], LogOf(w, s), DispatchOneStep(w, s, now);
    var flying, id, ids := Flying(w.workers, s), l.pending[0].id, Ids(l.pending);
    var drained := multiset(Ids(Drained(l)));
    DispatchedFacts(l);
    DispatchOwn(w, s, now);
    assert Ids(l.pending[1..]) == ids[1..];
    BooksActivate(g.submitted, g.activated, ids, flying, Gone(g));
    BooksLose(g.submitted, g.activated + [id], ids[1..], flying + multiset{id}, Gone(g),
              Ids(DispatchedLane(l).pending), drained);
    var h := g.(activated := g.activated + [id]);
    SameGone(g, h);
    GoneAdds(h, drained, multiset{});
  }

  lemma DispatchOwned(w: World, s: string, now: int)
    requires SessionInv(w, s) && Dispatches(w.q, s, now)
    ensures OwnedBy(DispatchOneStep(w, s, now).q, s)
  {
    hide DispatchedLane, DispatchedCommand, Drained, Books, Counted, Flying, Issued, Gone;
    var l, g, v := w.q.lanes[s], LogOf(w, s), DispatchOneStep(w, s, now);
    DispatchedFacts(l);
    BooksPendingDistinct(g.submitted, g.activated, Ids(l.pending), Flying(w.workers, s), Gone(g));
    forall c | c in PendingOf(v.q, s) ensures c.sessionKey == s && c.id in v.q.owner && v.q.owner[c.id] == s {
      var i :| 0 <= i < |l.pending[1..]| && l.pending[1..][i] == c;
      assert Ids(l.pending)[0] != Ids(l.pending)[i + 1];
    }
  }

  lemma DispatchCounted(w: World, s: string, now: int)
    requires SessionInv(w, s) && Dispatches(w.q, s, now)
    ensures Counted(DispatchOneStep(w, s, now), s) && Issued(DispatchOneStep(w, s, now), s)
  {
    hide DispatchedLane, DispatchedCommand, Drained, Books, Flying;
    DispatchedFacts(w.q.lanes[s]);
    DispatchOwn(w, s, now);
  }

  lemma DispatchKeepsOther(w: World, key: string, s: string, now: int)
    requires SessionInv(w, s) && SessionInv(w, key) && s != key && Dispatches(w.q, key, now)
    ensures SessionInv(DispatchOneStep(w, key, now), s)
  {
    hide DispatchedLane, DispatchedCommand, Drained, Books, Counted;
    var l, v := w.q.lanes[key], DispatchOneStep(w, key, now);
    DispatchedFacts(l);
    var cmd := DispatchedCommand(l);
    assert l.pending[0] in PendingOf(w.q, key);
    PendingIssued(w, key, l.pending[0]);
    FlyingConcat(w.workers, [cmd], s);
    FlyingOne(cmd, s);
    forall c | c in PendingOf(w.q, s) ensures c.id in v.q.owner && v.q.owner[c.id] == s {
      PendingIssued(w, s, c);
    }
    SessionUntouched(w, v, s);
  }

  lemma DispatchOneKeeps(w: World, key: string, now: int)
    requires Inv(w)
    ensures Inv(DispatchOneStep(w, key, now))
  {
    hide Balanced, Counted, OwnedBy, Issued, DispatchedLane, DispatchedCommand, Drained;
    if Dispatches(w.q, key, now) {
      assert SessionInv(w, key);
      forall s ensures SessionInv(DispatchOneStep(w, key, now), s) {
        assert SessionInv(w, s);
        if s != key {
          DispatchKeepsOther(w, key, s, now);
        } else {
          DispatchBalanced(w, s, now);
          DispatchOwned(w, s, now);
          DispatchCounted(w, s, now);
        }
      }
    }
  }

  lemma {:induction false} DispatchKeysKeep(w: World, keys: seq<string>, now: int)
    requires Inv(w)
    ensures Inv(DispatchKeysStep(w, keys, now))
    decreases keys
  {
    hide Inv, DispatchOneStep;
    if keys != [] && !Stops(w.q, keys[0]) {
      DispatchOneKeeps(w, keys[0], now);
      DispatchKeysKeep(DispatchOneStep(w, keys[0], now), keys[1..], now);
    }
  }

  // ---------------------------------------------------------------------
  // Configuring and finishing
  // ---------------------------------------------------------------------

  /** A change of the manager that no session's queue, marker or ids can notice. */
  lemma QuietChange(w: World, q: QueueState)
    requires Inv(w) && q.owner == w.q.owner && q.activeCount == w.q.activeCount
    requires forall s :: PendingOf(q, s) == PendingOf(w.q, s) && ActiveOf(q, s) == ActiveOf(w.q, s)
    ensures Inv(w.(q := q))
  {
    forall s ensures SessionInv(w.(q := q), s) {
      assert SessionInv(w, s);
      SessionUntouched(w, w.(q := q), s);
    }
  }

  lemma FinishKeepsOwn(w: World, i: nat)
    requires i < |w.workers| && SessionInv(w, w.workers[i].sessionKey)
    ensures SessionInv(FinishStep(w, i), w.workers[i].sessionKey)
  {
    var s, id := w.workers[i].sessionKey, w.workers[i].id;
    var g, v := LogOf(w, s), FinishStep(w, i);
    var flying := Flying(w.workers, s);
    FlyingWithout(w.workers, i, s);
    BooksFinish(g.submitted, g.activated, Ids(PendingOf(w.q, s)), flying, Gone(g), id);
    assert Flying(v.workers, s) == flying - multiset{id};
    assert Gone(LogOf(v, s)) == Gone(g) + multiset{id};
    assert PendingOf(v.q, s) == PendingOf(w.q, s) && ActiveOf(v.q, s).Nothing?;
  }

  lemma FinishKeepsOther(w: World, i: nat, s: string)
    requires i < |w.workers| && SessionInv(w, s) && s != w.workers[i].sessionKey
    ensures SessionInv(FinishStep(w, i), s)
  {
    hide Books;
    FlyingWithout(w.workers, i, s);
    SessionUntouched(w, FinishStep(w, i), s);
  }

  lemma FinishKeeps(w: World, i: nat)
    requires Inv(w) && i < |w.workers|
    ensures Inv(FinishStep(w, i))
  {
    hide SessionInv;
    var key := w.workers[i].sessionKey;
    var v := FinishStep(w, i);
    assert SessionInv(w, key);
    FinishKeepsOwn(w, i);
    forall s ensures SessionInv(v, s) {
      assert SessionInv(w, s);
      if s != key {
        FinishKeepsOther(w, i, s);
      }
    }
  }

  // ---------------------------------------------------------------------
  // Whole runs
  // ---------------------------------------------------------------------

  lemma StepKeeps(w: World, a: Action)
    requires Inv(w)
    ensures Inv(Step(w, a))
  {
    hide Inv, SubmitStep, CancelStep, AbortStep, FinishStep;
    match a
    case DoSubmit(cmd) => if cmd.id !in w.issued { SubmitKeeps(w, cmd); }
    case DoCancel(id) => CancelKeeps(w, id);
    case DoAbort(key) => AbortKeeps(w, key);
    case DoConfigure(key, mode, debounceMs, cap, drop) =>
      QuietChange(w, AfterConfigure(w.q, key, mode, debounceMs, cap, drop));
    case DoSetConfig(config) => QuietChange(w, w.q.(config := config));
    case DoDispatch(keys, now) =>
      DispatchKeysKeep(w, keys, now);
      var r := DispatchKeysStep(w, keys, now);
      QuietChange(r, WithoutIdle(r.q));
    case DoFinish(i) => if i < |w.workers| { FinishKeeps(w, i); }
  }

  lemma StartInv(config: QueueConfig)
    ensures Inv(Start(config))
  {
    var w := Start(config);
    var none: seq<string> := [];
    SubsequenceRefl(none);
    assert none + none == none;
    assert Books(none, none, none, multiset{}, multiset{});
    forall s ensures SessionInv(w, s) {
      assert Ids([]) == [];
    }
  }

  /** In every state of every run the books of every session balance. */
  lemma {:induction false} RunInv(config: QueueConfig, actions: seq<Action>)
    ensures Inv(Run(Start(config), actions))
    decreases actions
  {
    hide Inv, Step;
    if actions == [] {
      StartInv(config);
    } else {
      var n := |actions| - 1;
      RunInv(config, actions[..n]);
      StepKeeps(Run(Start(config), actions[..n]), actions[n]);
    }
  }

  // ---------------------------------------------------------------------
  // Consequences
  // ---------------------------------------------------------------------

  function Count(b: bool): nat {
    if b then 1 else 0
  }

  /** A submitted command is in exactly one place, once: pending, being worked on, finished,
      dropped by overflow, drained, cancelled, or cleared by an interrupt. */
  lemma EveryCommandAccountedFor(config: QueueConfig, actions: seq<Action>, s: string, id: string)
    requires id in LogOf(Run(Start(config), actions), s).submitted
    ensures var w := Run(Start(config), actions);
            var g := LogOf(w, s);
            multiset(Ids(PendingOf(w.q, s)))[id] + Flying(w.workers, s)[id] + g.finished[id] + g.dropped[id]
              + g.drained[id] + g.cancelled[id] + g.interrupted[id] == 1
  {
    hide Run, Flying;
    var w := Run(Start(config), actions);
    var g := LogOf(w, s);
    RunInv(config, actions);
    assert SessionInv(w, s);
    DistinctCount(g.submitted, id);
    assert multiset(g.submitted)[id] == 1;
  }

  /** Commands of one session start in the order in which they were submitted. */
  lemma StartedInOrder(config: QueueConfig, actions: seq<Action>, s: string)
    ensures var w := Run(Start(config), actions);
            Subsequence(LogOf(w, s).activated + Ids(PendingOf(w.q, s)), LogOf(w, s).submitted)
  {
    hide Run, Flying;
    RunInv(config, actions);
    assert SessionInv(Run(Start(config), actions), s);
  }

  /** Cancel succeeds exactly on pending commands, and removes nothing else. */
  lemma CancelSucceedsIffPending(config: QueueConfig, actions: seq<Action>, id: string)
    ensures var w := Run(Start(config), actions);
            AfterCancel(w.q, id).1 <==> exists s :: id in Ids(PendingOf(w.q, s))
    ensures var w := Run(Start(config), actions);
            forall s :: PendingOf(AfterCancel(w.q, id).0, s) == Without(PendingOf(w.q, s), id)
  {
    hide Run, Flying, Books, Counted, Issued;
    var w := Run(Start(config), actions);
    RunInv(config, actions);
    forall s ensures id in Ids(PendingOf(w.q, s)) ==> id in w.q.owner && w.q.owner[id] == s && AfterCancel(w.q, id).1 {
      assert SessionInv(w, s);
      IdsMember(PendingOf(w.q, s), id);
    }
    if AfterCancel(w.q, id).1 {
      var s := w.q.owner[id];
      var l := LaneAt(w.q, s);
      assert l.pending[PlaceOf(l.pending, id)] in PendingOf(w.q, s);
      IdsMember(PendingOf(w.q, s), id);
    }
    forall s ensures PendingOf(AfterCancel(w.q, id).0, s) == Without(PendingOf(w.q, s), id) {
      var p := PendingOf(w.q, s);
      if PlaceOf(p, id) < |p| {
        assert p[PlaceOf(p, id)] in p;
        IdsMember(p, id);
      }
    }
  }

  /** The exact number of a session's commands in flight. Without an interrupt or abort of an
      active command it is at most one: execution is serial. */
  lemma InFlightLaw(config: QueueConfig, actions: seq<Action>, s: string)
    ensures var w := Run(Start(config), actions);
            var g := LogOf(w, s);
            && |Flying(w.workers, s)| + g.unseen == Marker(w.q, s) + g.interrupts
            && |Flying(w.workers, s)| <= Marker(w.q, s) + g.interrupts
            && (g.interrupts == 0 ==> |Flying(w.workers, s)| == Marker(w.q, s) <= 1)
            && (|Flying(w.workers, s)| >= 2 <==> Marker(w.q, s) + g.interrupts >= g.unseen + 2)
  {
    hide Run, Flying, Books;
    RunInv(config, actions);
    assert SessionInv(Run(Start(config), actions), s);
  }

  // ---------------------------------------------------------------------
  // The concurrency limit
  // ---------------------------------------------------------------------

  lemma {:induction false} DispatchRespectsLimit(q: QueueState, keys: seq<string>, now: int)
    ensures var r := DispatchKeys(q, keys, now).0;
            r.config == q.config && q.activeCount <= r.activeCount &&
            (r.activeCount <= q.activeCount || r.activeCount <= q.config.maxConcurrent)
    decreases keys
  {
    if keys != [] && !Stops(q, keys[0]) {
      DispatchRespectsLimit(DispatchOne(q, keys[0], now).0, keys[1..], now);
    }
  }

  lemma StepRespectsLimit(w: World, a: Action)
    requires !a.DoSetConfig? && w.q.config.maxConcurrent >= 0 && w.q.activeCount <= w.q.config.maxConcurrent
    ensures Step(w, a).q.config == w.q.config && Step(w, a).q.activeCount <= w.q.config.maxConcurrent
  {
    if a.DoDispatch? {
      DispatchKeysAgree(w, a.keys, a.now);
      DispatchRespectsLimit(w.q, a.keys, a.now);
    }
  }

  lemma {:induction false} RunRespectsLimit(config: QueueConfig, actions: seq<Action>)
    requires config.maxConcurrent >= 0 && forall a :: a in actions ==> !a.DoSetConfig?
    ensures var w := Run(Start(config), actions);
            w.q.config == config && w.q.activeCount <= config.maxConcurrent
    decreases actions
  {
    hide Step;
    if actions != [] {
      var n := |actions| - 1;
      RunRespectsLimit(config, actions[..n]);
      StepRespectsLimit(Run(Start(config), actions[..n]), actions[n]);
    }
  }

  /** active_count is the number of workers, and stays within the configured limit. */
  lemma ConcurrencyBounded(config: QueueConfig, actions: seq<Action>)
    requires config.maxConcurrent >= 0 && forall a :: a in actions ==> !a.DoSetConfig?
    ensures var w := Run(Start(config), actions);
            w.q.activeCount == |w.workers| <= config.maxConcurrent
  {
    hide Run;
    RunInv(config, actions);
    RunRespectsLimit(config, actions);
  }

  // ---------------------------------------------------------------------
  // No ready lane is left waiting
  // ---------------------------------------------------------------------

  lemma DispatchOneSettles(q: QueueState, key: string, now: int, s: string)
    ensures !Dispatches(DispatchOne(q, key, now).0, key, now)
    ensures !Dispatches(q, s, now) ==> !Dispatches(DispatchOne(q, key, now).0, s, now)
  {
  }

  lemma {:induction false} DispatchSettles(q: QueueState, keys: seq<string>, now: int, s: string)
    requires s in keys || !Dispatches(q, s, now)
    ensures var r := DispatchKeys(q, keys, now).0;
            Dispatches(r, s, now) ==> r.activeCount >= r.config.maxConcurrent
    decreases keys
  {
    hide Dispatches, DispatchOne;
    if keys != [] && !Stops(q, keys[0]) {
      DispatchOneSettles(q, keys[0], now, s);
      DispatchSettles(DispatchOne(q, keys[0], now).0, keys[1..], now, s);
    }
  }

  /** After a round that looks at every lane, a lane whose head command is due and that has no
      active command is left waiting only because the limit is reached. */
  lemma RoundIsWorkConserving(q: QueueState, keys: seq<string>, now: int, s: string)
    requires forall k :: k in q.lanes ==> k in keys
    ensures var r := AfterDispatch(q, keys, now).0;
            Dispatches(r, s, now) ==> r.activeCount >= r.config.maxConcurrent
  {
    hide DispatchKeys;
    DispatchSettles(q, keys, now, s);
  }

  // ---------------------------------------------------------------------
  // Interrupts break serial execution
  // ---------------------------------------------------------------------

  /** Whenever a session has an active command and the limit leaves room, aborting it, submitting
      another one and a dispatcher round that looks at this session first, whatever other lanes it
      then looks at, put two of the session's commands in flight at once. */
  lemma AbortOverlaps(w: World, cmd: Command, others: seq<string>, now: int)
    requires Inv(w) && cmd.id !in w.issued
    requires ActiveOf(w.q, cmd.sessionKey).Just? && PendingOf(w.q, cmd.sessionKey) == []
    requires w.q.lanes[cmd.sessionKey].cap >= 1 && w.q.activeCount < w.q.config.maxConcurrent
    requires ElapsedMs(now, cmd.enqueuedAt) >= w.q.lanes[cmd.sessionKey].debounceMs
    ensures var s := cmd.sessionKey;
            var v := Step(Step(Step(w, DoAbort(s)), DoSubmit(cmd)), DoDispatch([s] + others, now));
            |Flying(v.workers, s)| >= 2
  {
    hide Flying, Balanced, Issued, OwnedBy, Gone, Cleared, SubmitLane, DispatchedCommand, DispatchedLane;
    var s := cmd.sessionKey;
    var l := w.q.lanes[s];
    assert SessionInv(w, s);
    var a := AbortStep(w, s);
    assert a.q.lanes[s] == l.(active := Nothing);
    var b := SubmitStep(a, cmd);
    SubmittedToIdle(a.q.lanes[s], cmd);
    assert b.q.lanes[s] == SubmitLane(a.q.lanes[s], cmd).0;
    assert Dispatches(b.q, s, now) && !Stops(b.q, s);
    StartsOne(b, s, others, now);
  }

  lemma StartsOne(b: World, s: string, others: seq<string>, now: int)
    requires Dispatches(b.q, s, now) && !Stops(b.q, s)
    requires b.q.lanes[s].pending[0].sessionKey == s
    ensures |Flying(Step(b, DoDispatch([s] + others, now)).workers, s)| >= |Flying(b.workers, s)| + 1
  {
    hide Flying, DispatchedCommand, DispatchedLane;
    var started := DispatchedCommand(b.q.lanes[s]);
    DispatchedFacts(b.q.lanes[s]);
    var v := DispatchOneStep(b, s, now);
    assert v.workers == b.workers + [started];
    Cons(s, others);
    assert DispatchKeysStep(b, [s] + others, now) == DispatchKeysStep(v, others, now);
    DispatchKeysAgree(v, others, now);
    FlyingConcat(v.workers, DispatchKeys(v.q, others, now).1, s);
    FlyingConcat(b.workers, [started], s);
    FlyingOne(started, s);
  }

  lemma SubmittedToIdle(l: Lane, cmd: Command)
    requires l.active.Nothing? && l.pending == [] && l.cap >= 1
    ensures SubmitLane(l, cmd).0 == l.(pending := [cmd.(mode := EffectiveMode(l, cmd.mode))])
  {
  }
}
