/** The replicator cannot go on for ever: a measure that every non-empty batch decreases. */
module ReplicationBudget {
  import opened Outcomes
  import opened Replication
  import opened ReplicationProtocol
  import opened ReplicationSafety

  // ---------------------------------------------------------------- sums over maps

  ghost function Total(m: map<Key, nat>): nat
    decreases |m|
  {
    if m == map[] then 0
    else
      var k :| k in m;
      m[k] + Total(m - {k})
  }

  lemma {:induction false} TotalWithout(m: map<Key, nat>, k: Key)
    requires k in m
    ensures Total(m) == m[k] + Total(m - {k})
    decreases |m|
  {
    var x :| x in m && Total(m) == m[x] + Total(m - {x});
    if x != k {
      TotalWithout(m - {x}, k);
      TotalWithout(m - {k}, x);
      assert m - {x} - {k} == m - {k} - {x};
    }
  }

  lemma TotalBumped(m: map<Key, nat>, k: Key)
    ensures Total(Bump(m, k)) == Total(m) + 1
  {
    var n := Bump(m, k);
    TotalWithout(n, k);
    assert n - {k} == m - {k};
    if k in m {
      TotalWithout(m, k);
    } else {
      assert m - {k} == m;
    }
  }

  lemma {:induction false} TotalBumpedAll(m: map<Key, nat>, batch: seq<Task>)
    ensures Total(BumpAll(m, batch)) == Total(m) + |batch|
  {
    if batch != [] {
      TotalBumpedAll(m, batch[..|batch| - 1]);
      TotalBumped(BumpAll(m, batch[..|batch| - 1]), batch[|batch| - 1].Key());
    }
  }

  lemma {:induction false} TotalBounded(m: map<Key, nat>, keys: set<Key>, c: nat)
    requires c >= 1 && m.Keys <= keys && forall k :: k in m ==> m[k] <= c
    ensures Total(m) <= |keys| * c
    ensures (exists k :: k in keys && (k !in m || m[k] < c)) ==> Total(m) < |keys| * c
    decreases |keys|
  {
    if keys == {} {
      assert m == map[];
    } else {
      var k :| k in keys && ((exists x :: x in keys && (x !in m || m[x] < c)) ==> k !in m || m[k] < c);
      assert |keys| * c == |keys - {k}| * c + c;
      TotalBounded(m - {k}, keys - {k}, c);
      if k in m {
        TotalWithout(m, k);
      } else {
        assert m - {k} == m;
      }
    }
  }

  // ---------------------------------------------------------------- the budget

  /** The keys that have a status record. */
  ghost function Keys(w: World): set<Key> {
    set id, r | id in w.tracker && r in w.tracker[id].regional :: (id, r)
  }

  ghost predicate TotalsFit(w: World) {
    && w.drained == Total(w.attempts)
    && w.batches <= w.drained
    && forall k :: k in w.attempts ==> w.attempts[k] >= 1
  }

  lemma {:induction false} BumpedArePositive(m: map<Key, nat>, batch: seq<Task>)
    requires forall k :: k in m ==> m[k] >= 1
    ensures forall k :: k in BumpAll(m, batch) ==> BumpAll(m, batch)[k] >= 1
  {
    if batch != [] {
      BumpedArePositive(m, batch[..|batch| - 1]);
    }
  }

  lemma NextKeepsTotals(e: Env, w: World, ev: Event)
    requires Enabled(e, w, ev) && TotalsFit(w)
    ensures TotalsFit(Next(e, w, ev))
  {
    if ev.Drain? {
      DrainKeepsTotals(e, w);
    } else {
      Untouched(e, w, ev);
    }
  }

  lemma DrainKeepsTotals(e: Env, w: World)
    requires TotalsFit(w)
    ensures TotalsFit(DrainAct(e, w))
  {
    var n := BatchSize(e.policy, w.queue);
    if n > 0 {
      TotalBumpedAll(w.attempts, w.queue[..n]);
      BumpedArePositive(w.attempts, w.queue[..n]);
      DrainCounts(e, w);
    }
  }

  lemma DrainCounts(e: Env, w: World)
    requires BatchSize(e.policy, w.queue) > 0
    ensures var n := BatchSize(e.policy, w.queue);
            var x := DrainAct(e, w);
            x.attempts == BumpAll(w.attempts, w.queue[..n]) && x.drained == w.drained + n && x.batches == w.batches + 1
  {
  }

  /** Attempts left over all registered keys. */
  ghost function Budget(e: Env, w: World): int {
    |Keys(w)| * (e.policy.maxRetries + 1) - w.drained
  }

  lemma AttemptOf(e: Env, w: World, k: Key)
    requires KeyInv(e, w, k)
    ensures Attempts(w, k) <= e.policy.maxRetries + 1
    ensures Record(w.tracker, k) == None ==> Attempts(w, k) == 0
    ensures Record(w.tracker, k).Some? && Count(w.queue, k) > 0 && Unworked(w, k) ==> Attempts(w, k) <= e.policy.maxRetries
  {
    if i :| OnKey(w, i, k) {
      assert Fits(e.policy, ViewOf(e, w, k), w.workers[i].pc);
    } else {
      assert Unworked(w, k);
    }
  }

  lemma AttemptedKeys(e: Env, w: World)
    requires Inv(e, w) && TotalsFit(w)
    ensures w.attempts.Keys <= Keys(w)
    ensures forall k :: k in w.attempts ==> w.attempts[k] <= e.policy.maxRetries + 1
  {
    forall k | k in w.attempts
      ensures k in Keys(w) && w.attempts[k] <= e.policy.maxRetries + 1
    {
      assert KeyInv(e, w, k);
      AttemptOf(e, w, k);
    }
  }

  /** The budget is never overdrawn, so the non-empty batches of a whole run number at most the registered keys times
      `max_retries + 1`; and with nobody in flight or registering, an empty budget means an empty queue. */
  lemma BudgetSuffices(e: Env, w: World)
    requires Inv(e, w) && TotalsFit(w)
    ensures 0 <= Budget(e, w)
    ensures w.batches <= |Keys(w)| * (e.policy.maxRetries + 1)
    ensures Budget(e, w) == 0 && w.workers == map[] && w.clients == map[] ==> w.queue == []
  {
    AttemptedKeys(e, w);
    TotalBounded(w.attempts, Keys(w), e.policy.maxRetries + 1);
    if w.queue != [] && w.workers == map[] && w.clients == map[] {
      var k := w.queue[0].Key();
      assert KeyInv(e, w, k) && Unworked(w, k);
      CountIsZero(w.queue, k);
      AttemptOf(e, w, k);
      assert !Registering(e, w, k);
      assert k in Keys(w) && (k !in w.attempts || w.attempts[k] < e.policy.maxRetries + 1);
    }
  }

  lemma KeysKept(e: Env, w: World, i: nat)
    requires i in w.workers
    ensures Keys(WorkerAct(e, w, i)) == Keys(w)
  {
    var x := WorkerAct(e, w, i);
    assert x.tracker.Keys == w.tracker.Keys;
    assert forall id :: id in w.tracker ==> x.tracker[id].regional.Keys == w.tracker[id].regional.Keys;
  }

  /** With no client at work and at least one transfer allowed, every event but a new submission leaves the registered
      keys alone, and the only event to spend budget is a drain, which spends it exactly when the queue is not
      empty. */
  lemma OnlyBatchesSpend(e: Env, w: World, ev: Event)
    requires Enabled(e, w, ev) && !ev.Submit? && w.clients == map[] && e.policy.maxParallel >= 1
    ensures var x := Next(e, w, ev);
            && x.clients == map[]
            && Budget(e, x) + (x.batches - w.batches) <= Budget(e, w)
            && (ev.Drain? && w.queue != [] ==> Budget(e, x) < Budget(e, w) && x.batches == w.batches + 1)
            && (!ev.Drain? ==> Budget(e, x) == Budget(e, w))
  {
    Untouched(e, w, ev);
    match ev
    case WorkerActs(i) => KeysKept(e, w, i);
    case _ =>
  }

  /** Without new backups, however the threads interleave, the batches still to come are bounded by the budget. */
  lemma BatchesRunOut(e: Env, w: World, events: seq<Event>)
    requires DistinctTargets(e) && Inv(e, w) && TotalsFit(w) && w.clients == map[] && e.policy.maxParallel >= 1
    requires EnabledRun(e, w, events) && forall ev :: ev in events ==> !ev.Submit?
    ensures After(e, w, events).batches - w.batches <= Budget(e, w) - Budget(e, After(e, w, events))
    ensures After(e, w, events).batches - w.batches <= Budget(e, w) <= |Keys(w)| * (e.policy.maxRetries + 1)
  {
    BatchesSpend(e, w, events);
    RunKeepsInv(e, w, events);
    RunKeepsTotals(e, w, events);
    BudgetSuffices(e, After(e, w, events));
  }

  function Drains(events: seq<Event>): nat {
    if events == [] then 0 else (if events[0].Drain? then 1 else 0) + Drains(events[1..])
  }

  /** Without clients and workers an empty queue stays empty. */
  lemma IdleStaysEmpty(e: Env, w: World, ev: Event)
    requires w.queue == [] && w.clients == map[] && w.workers == map[] && Enabled(e, w, ev) && !ev.Submit?
    ensures var x := Next(e, w, ev); x.queue == [] && x.clients == map[] && x.workers == map[]
  {
    Untouched(e, w, ev);
    match ev
    case Acquire(t) => EnteringIdle(w, t);
    case Drain => assert BatchSize(e.policy, w.queue) == 0;
    case _ =>
  }

  lemma EnteringIdle(w: World, t: Thread)
    requires w.clients == map[] && w.workers == map[] && Wants(w, t).Some?
    ensures Enter(w, t).clients == map[] && Enter(w, t).workers == map[]
  {
  }

  lemma {:induction false} EmptyForGood(e: Env, w: World, events: seq<Event>)
    requires w.queue == [] && w.clients == map[] && w.workers == map[]
    requires EnabledRun(e, w, events) && forall ev :: ev in events ==> !ev.Submit?
    ensures After(e, w, events).queue == []
    decreases |events|
  {
    if events != [] {
      IdleStaysEmpty(e, w, events[0]);
      EmptyForGood(e, Next(e, w, events[0]), events[1..]);
    }
  }

  /** Without new backups every run that drains more often than the budget allows ends with an empty queue: so within keys
      times `max_retries + 1` batches all work is done, however the threads interleave. */
  lemma {:induction false} QueueEmpties(e: Env, w: World, events: seq<Event>)
    requires DistinctTargets(e) && Inv(e, w) && TotalsFit(w) && w.clients == map[] && e.policy.maxParallel >= 1
    requires EnabledRun(e, w, events) && (forall ev :: ev in events ==> !ev.Submit?) && Drains(events) > Budget(e, w)
    ensures After(e, w, events).queue == []
    decreases |events|
  {
    BudgetSuffices(e, w);
    var ev := events[0];
    OnlyBatchesSpend(e, w, ev);
    if ev.Drain? && w.queue == [] {
      EmptyForGood(e, w, events);
    } else {
      NextKeepsInv(e, w, ev);
      NextKeepsTotals(e, w, ev);
      QueueEmpties(e, Next(e, w, ev), events[1..]);
    }
  }

  lemma {:induction false} BatchesSpend(e: Env, w: World, events: seq<Event>)
    requires w.clients == map[] && e.policy.maxParallel >= 1
    requires EnabledRun(e, w, events) && forall ev :: ev in events ==> !ev.Submit?
    ensures After(e, w, events).batches - w.batches <= Budget(e, w) - Budget(e, After(e, w, events))
    decreases |events|
  {
    if events != [] {
      OnlyBatchesSpend(e, w, events[0]);
      BatchesSpend(e, Next(e, w, events[0]), events[1..]);
    }
  }

  lemma {:induction false} RunKeepsTotals(e: Env, w: World, events: seq<Event>)
    requires TotalsFit(w) && EnabledRun(e, w, events)
    ensures TotalsFit(After(e, w, events))
    decreases |events|
  {
    if events != [] {
      NextKeepsTotals(e, w, events[0]);
      RunKeepsTotals(e, Next(e, w, events[0]), events[1..]);
    }
  }
}
