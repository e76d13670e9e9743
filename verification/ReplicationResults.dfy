/** What holds in every reachable state of the replicator: one task per unfinished key, no lost retry, bounded
    attempts, lasting failures, honest health, queue order, and verified copies. */
module ReplicationResults {
  import opened Outcomes
  import opened Replication
  import opened ReplicationProtocol
  import opened ReplicationSafety

  ghost predicate Reachable(e: Env, events: seq<Event>) {
    DistinctTargets(e) && EnabledRun(e, Start(), events)
  }

  ghost function Reached(e: Env, events: seq<Event>): World
    requires Reachable(e, events)
  {
    After(e, Start(), events)
  }

  lemma ReachedInv(e: Env, events: seq<Event>)
    requires Reachable(e, events)
    ensures Inv(e, Reached(e, events))
  {
    StartInv(e);
    RunKeepsInv(e, Start(), events);
  }

  // ---------------------------------------------------------------- tasks and attempts

  /** The workers that still have to decide the key's fate; one that has pushed the retry has handed it on. */
  ghost function Owners(w: World, k: Key): set<nat> {
    set i | i in w.workers && w.workers[i].task.Key() == k && !w.workers[i].pc.WritingRetry?
  }

  lemma OwnersOf(e: Env, w: World, k: Key)
    requires KeyInv(e, w, k)
    ensures Unworked(w, k) ==> Owners(w, k) == {}
    ensures forall i: nat :: OnKey(w, i, k) ==> Owners(w, k) == if w.workers[i].pc.WritingRetry? then {} else {i}
  {
    forall i: nat | OnKey(w, i, k)
      ensures Owners(w, k) == if w.workers[i].pc.WritingRetry? then {} else {i}
    {
      forall j | j in Owners(w, k)
        ensures j == i
      {
        assert OnKey(w, j, k);
      }
    }
    assert Unworked(w, k) ==> forall j :: j in Owners(w, k) ==> OnKey(w, j, k);
  }

  /** In every interleaving a registered key has exactly one task, queued or in flight, until it is final or
      its verification lost its storage, and none from then on. */
  lemma OneTaskUntilFinal(e: Env, events: seq<Event>, k: Key)
    requires Reachable(e, events) && Record(Reached(e, events).tracker, k).Some?
    ensures var w := Reached(e, events);
            Count(w.queue, k) + |Owners(w, k)| ==
              if Final(e.policy, Record(w.tracker, k).value.state) || k in w.orphaned then 0 else 1
  {
    ReachedInv(e, events);
    OneTaskIn(e, Reached(e, events), k);
  }

  lemma OneTaskIn(e: Env, w: World, k: Key)
    requires Inv(e, w) && Record(w.tracker, k).Some?
    ensures Count(w.queue, k) + |Owners(w, k)| ==
              if Final(e.policy, Record(w.tracker, k).value.state) || k in w.orphaned then 0 else 1
  {
    assert KeyInv(e, w, k);
    OwnersOf(e, w, k);
    if i :| OnKey(w, i, k) {
      assert Fits(e.policy, ViewOf(e, w, k), w.workers[i].pc);
    } else {
      assert Unworked(w, k);
    }
  }

  /** The retry count a worker read before it pushed its retry is still the stored one when it writes, so the
      unlocked gap loses no increment. */
  lemma NoLostRetry(e: Env, events: seq<Event>, i: nat)
    requires Reachable(e, events)
    requires i in Reached(e, events).workers && Reached(e, events).workers[i].pc.WritingRetry?
    ensures var w := Reached(e, events);
            var k := w.workers[i].task.Key();
            && RetryCount(w.tracker, k) == w.workers[i].pc.count
            && RetryCount(WorkerAct(e, w, i).tracker, k) == RetryCount(w.tracker, k) + 1 == Attempts(w, k)
            && Count(w.queue, k) == 1
  {
    ReachedInv(e, events);
    var w := Reached(e, events);
    var k := w.workers[i].task.Key();
    assert KeyInv(e, w, k) && OnKey(w, i, k);
    RecordAfterRetry(w.tracker, k, w.workers[i].pc.count + 1, k);
  }

  /** No (backup, region) is attempted more than `max_retries + 1` times, and the attempts are the retries
      recorded, plus one once it is in flight or finished. */
  lemma AttemptsAreBounded(e: Env, events: seq<Event>, k: Key)
    requires Reachable(e, events)
    ensures var w := Reached(e, events);
            && Attempts(w, k) <= e.policy.maxRetries + 1
            && RetryCount(w.tracker, k) <= Attempts(w, k) <= RetryCount(w.tracker, k) + 1
  {
    ReachedInv(e, events);
    var w := Reached(e, events);
    assert KeyInv(e, w, k);
    if i :| OnKey(w, i, k) {
      assert Fits(e.policy, ViewOf(e, w, k), w.workers[i].pc);
    } else {
      assert Unworked(w, k);
    }
  }

  /** Whenever the dispatcher holds the queue, every task in it has its status record stored. */
  lemma NothingDrainedUnregistered(e: Env, events: seq<Event>, task: Task)
    requires Reachable(e, events)
    requires Reached(e, events).dispatcher == Draining && task in Reached(e, events).queue
    ensures Record(Reached(e, events).tracker, task.Key()).Some?
  {
    ReachedInv(e, events);
    var w := Reached(e, events);
    assert KeyInv(e, w, task.Key());
    CountIsZero(w.queue, task.Key());
    DrainedIsStored(e, w, task.Key());
  }

  // ---------------------------------------------------------------- what is final stays

  ghost predicate Settled(e: Env, w: World, k: Key) {
    Record(w.tracker, k).Some? && (Final(e.policy, Record(w.tracker, k).value.state) || k in w.orphaned)
  }

  lemma FlyingIsUnsettled(e: Env, w: World, k: Key, i: nat)
    requires KeyInv(e, w, k) && OnKey(w, i, k)
    ensures !Settled(e, w, k)
  {
    assert Fits(e.policy, ViewOf(e, w, k), w.workers[i].pc);
  }

  lemma SettledHasNoWorker(e: Env, w: World, k: Key)
    requires KeyInv(e, w, k) && Settled(e, w, k)
    ensures Unworked(w, k)
  {
    forall i
      ensures !OnKey(w, i, k)
    {
      if OnKey(w, i, k) {
        FlyingIsUnsettled(e, w, k, i);
      }
    }
  }

  lemma SettledStaysOne(e: Env, w: World, ev: Event, k: Key)
    requires Inv(e, w) && Enabled(e, w, ev) && Settled(e, w, k)
    ensures Settled(e, Next(e, w, ev), k) && Record(Next(e, w, ev).tracker, k) == Record(w.tracker, k)
    ensures k in w.orphaned ==> k in Next(e, w, ev).orphaned
  {
    assert KeyInv(e, w, k);
    SettledHasNoWorker(e, w, k);
    Untouched(e, w, ev);
    match ev
    case WorkerActs(i) =>
      assert !OnKey(w, i, k);
      OtherRecordsKept(e, w, w.workers[i].task, w.workers[i].pc, k);
    case ClientActs(c) => ClientKeepsRecords(e, w, c, k);
    case _ =>
  }

  lemma ClientKeepsRecords(e: Env, w: World, c: nat, k: Key)
    requires ClientsFit(w) && c in w.clients && w.clients[c].pc in {InQueue, InTracker} && Record(w.tracker, k).Some?
    ensures Record(ClientAct(e, w, c).tracker, k) == Record(w.tracker, k)
  {
  }

  /** A region that failed, was verified, completed without verification, or lost its verification stays exactly
      as it is for the rest of every run. */
  lemma {:induction false} SettledStays(e: Env, w: World, events: seq<Event>, k: Key)
    requires DistinctTargets(e) && Inv(e, w) && EnabledRun(e, w, events) && Settled(e, w, k)
    ensures Settled(e, After(e, w, events), k) && Record(After(e, w, events).tracker, k) == Record(w.tracker, k)
    decreases |events|
  {
    if events != [] {
      SettledStaysOne(e, w, events[0], k);
      NextKeepsInv(e, w, events[0]);
      SettledStays(e, Next(e, w, events[0]), events[1..], k);
    }
  }

  /** A region that is neither queued nor in flight is final exactly unless its verification lost its storage. */
  lemma RestsFinalUnlessOrphaned(e: Env, events: seq<Event>, k: Key)
    requires Reachable(e, events) && Record(Reached(e, events).tracker, k).Some?
    requires Count(Reached(e, events).queue, k) == 0 && Unworked(Reached(e, events), k)
    ensures var w := Reached(e, events); Final(e.policy, Record(w.tracker, k).value.state) <==> k !in w.orphaned
  {
    ReachedInv(e, events);
    assert KeyInv(e, Reached(e, events), k);
  }

  /** The key's worker finds no storage to check its copy in. */
  predicate LosesStorage(w: World, ev: Event, k: Key) {
    ev.Checks? && ev.check == NoStorage && OnKey(w, ev.i, k)
  }

  ghost predicate StorageLost(e: Env, w: World, events: seq<Event>, k: Key)
    requires EnabledRun(e, w, events)
    decreases |events|
  {
    events != [] && (LosesStorage(w, events[0], k) || StorageLost(e, Next(e, w, events[0]), events[1..], k))
  }

  lemma OrphanedStep(e: Env, w: World, ev: Event, k: Key)
    requires Enabled(e, w, ev)
    ensures k in Next(e, w, ev).orphaned <==> k in w.orphaned || LosesStorage(w, ev, k)
  {
    Untouched(e, w, ev);
  }

  lemma {:induction false} OrphanedRun(e: Env, w: World, events: seq<Event>, k: Key)
    requires EnabledRun(e, w, events)
    ensures k in After(e, w, events).orphaned <==> k in w.orphaned || StorageLost(e, w, events, k)
    decreases |events|
  {
    if events != [] {
      OrphanedStep(e, w, events[0], k);
      OrphanedRun(e, Next(e, w, events[0]), events[1..], k);
    }
  }

  /** So a region at rest is final exactly when in the whole run no check of its copy failed to find its storage. */
  lemma FinalExactlyWhenStorageFound(e: Env, events: seq<Event>, k: Key)
    requires Reachable(e, events) && Record(Reached(e, events).tracker, k).Some?
    requires Count(Reached(e, events).queue, k) == 0 && Unworked(Reached(e, events), k)
    ensures Final(e.policy, Record(Reached(e, events).tracker, k).value.state) <==> !StorageLost(e, Start(), events, k)
  {
    RestsFinalUnlessOrphaned(e, events, k);
    OrphanedRun(e, Start(), events, k);
  }

  // ---------------------------------------------------------------- health

  /** The stored health is the one the region states define, except that nothing ever updates a backup without
      remote regions. */
  ghost predicate StatusFits(e: Env, s: Status) {
    && s.primaryRegion == e.primaryRegion
    && (forall r :: r in s.regional <==> IsTarget(e, r))
    && s.health == if s.regional == map[] then Degraded else HealthOf(s.regional)
  }

  ghost predicate TrackerFits(e: Env, tracker: map<BackupId, Status>) {
    forall id :: id in tracker ==> StatusFits(e, tracker[id])
  }

  lemma UpdateKeepsFit(e: Env, tracker: map<BackupId, Status>, k: Key, state: State, bytes: Option<nat>)
    requires TrackerFits(e, tracker) && Record(tracker, k).Some?
    ensures TrackerFits(e, UpdateStatus(tracker, k, state, bytes))
  {
  }

  lemma RetryKeepsFit(e: Env, tracker: map<BackupId, Status>, k: Key, count: nat)
    requires TrackerFits(e, tracker) && Record(tracker, k).Some?
    ensures TrackerFits(e, WriteRetry(tracker, k, count))
  {
    var after := WriteRetry(tracker, k, count);
    forall id | id in after
      ensures StatusFits(e, after[id])
    {
      assert StatusFits(e, tracker[id]);
      if id == k.0 {
        SameHealth(tracker[id].regional, after[id].regional);
      }
    }
  }

  lemma SameHealth(was: map<Region, Regional>, now: map<Region, Regional>)
    requires was.Keys == now.Keys && forall r :: r in was ==> was[r].state == now[r].state
    ensures HealthOf(was) == HealthOf(now)
  {
    assert forall r :: r in was <==> r in now;
  }

  lemma InitialFits(e: Env)
    ensures StatusFits(e, InitialStatus(e.policy.targetRegions, e.primaryRegion))
  {
    var regional := InitialRegional(e.policy.targetRegions, e.primaryRegion);
    if regional != map[] {
      var r :| r in regional;
      assert regional[r].state == Pending;
    }
  }

  /** A worker's section leaves the tracker alone, updates its own state, or writes its retry count. */
  lemma SectionShape(e: Env, w: World, task: Task, pc: Pc) returns (state: State, bytes: Option<nat>)
    ensures var tracker := WorkerEffect(e, w, task, pc).tracker;
            || tracker == w.tracker
            || tracker == UpdateStatus(w.tracker, task.Key(), state, bytes)
            || (pc.WritingRetry? && tracker == WriteRetry(w.tracker, task.Key(), pc.count + 1))
  {
    bytes := if pc.Storing? then Some(pc.bytes) else None;
    state := match pc
      case Starting => InProgress
      case Storing(_) => Completed
      case Concluding(result) => result
      case GivingUp => Failed
      case _ => Verifying;
  }

  lemma SectionKeepsFit(e: Env, w: World, task: Task, pc: Pc)
    requires TrackerFits(e, w.tracker) && Record(w.tracker, task.Key()).Some?
    ensures TrackerFits(e, WorkerEffect(e, w, task, pc).tracker)
  {
    var state, bytes := SectionShape(e, w, task, pc);
    var tracker := WorkerEffect(e, w, task, pc).tracker;
    if tracker == UpdateStatus(w.tracker, task.Key(), state, bytes) {
      UpdateKeepsFit(e, w.tracker, task.Key(), state, bytes);
    } else if tracker != w.tracker {
      RetryKeepsFit(e, w.tracker, task.Key(), pc.count + 1);
    }
  }

  lemma NextKeepsFit(e: Env, w: World, ev: Event)
    requires Inv(e, w) && Enabled(e, w, ev) && TrackerFits(e, w.tracker)
    ensures TrackerFits(e, Next(e, w, ev).tracker)
  {
    Untouched(e, w, ev);
    match ev
    case WorkerActs(i) =>
      assert KeyInv(e, w, w.workers[i].task.Key()) && OnKey(w, i, w.workers[i].task.Key());
      WorkerKeepsFit(e, w, i);
    case ClientActs(c) => ClientKeepsFit(e, w, c);
    case _ =>
  }

  lemma WorkerKeepsFit(e: Env, w: World, i: nat)
    requires i in w.workers && Record(w.tracker, w.workers[i].task.Key()).Some? && TrackerFits(e, w.tracker)
    ensures TrackerFits(e, WorkerAct(e, w, i).tracker)
  {
    SectionKeepsFit(e, w, w.workers[i].task, w.workers[i].pc);
  }

  lemma ClientKeepsFit(e: Env, w: World, c: nat)
    requires c in w.clients && TrackerFits(e, w.tracker)
    ensures TrackerFits(e, ClientAct(e, w, c).tracker)
  {
    RegisteredFits(e, w.tracker, w.clients[c].id);
  }

  lemma RegisteredFits(e: Env, tracker: map<BackupId, Status>, id: BackupId)
    requires TrackerFits(e, tracker)
    ensures TrackerFits(e, tracker[id := InitialStatus(e.policy.targetRegions, e.primaryRegion)])
  {
    InitialFits(e);
    InsertFits(e, tracker, id, InitialStatus(e.policy.targetRegions, e.primaryRegion));
  }

  lemma InsertFits(e: Env, tracker: map<BackupId, Status>, id: BackupId, s: Status)
    requires TrackerFits(e, tracker) && StatusFits(e, s)
    ensures TrackerFits(e, tracker[id := s])
  {
  }

  lemma {:induction false} RunKeepsFit(e: Env, w: World, events: seq<Event>)
    requires DistinctTargets(e) && Inv(e, w) && EnabledRun(e, w, events) && TrackerFits(e, w.tracker)
    ensures TrackerFits(e, After(e, w, events).tracker)
    decreases |events|
  {
    if events != [] {
      NextKeepsInv(e, w, events[0]);
      NextKeepsFit(e, w, events[0]);
      RunKeepsFit(e, Next(e, w, events[0]), events[1..]);
    }
  }

  /** In every reachable state the stored health is the health its region states define, exactly when the policy
      has a target region besides the primary; without one it stays `Degraded` although nothing is missing. */
  lemma HealthIsHonest(e: Env, events: seq<Event>, id: BackupId)
    requires Reachable(e, events) && id in Reached(e, events).tracker
    ensures var s := Reached(e, events).tracker[id];
            s.health == HealthOf(s.regional) <==> exists r :: IsTarget(e, r)
  {
    StartInv(e);
    RunKeepsFit(e, Start(), events);
    var s := Reached(e, events).tracker[id];
    assert StatusFits(e, s);
    if r :| IsTarget(e, r) {
      assert r in s.regional;
    } else {
      assert s.regional == map[];
    }
  }

  /** With a remote region the stored health is `Healthy` in every reachable state exactly when every remote region is
      completed or verified, `Unhealthy` exactly when one has failed, and `Degraded` otherwise. */
  lemma HealthSaysWhich(e: Env, events: seq<Event>, id: BackupId)
    requires Reachable(e, events) && id in Reached(e, events).tracker && exists r :: IsTarget(e, r)
    ensures var s := Reached(e, events).tracker[id];
            && s.primaryRegion == e.primaryRegion
            && (forall r :: r in s.regional <==> IsTarget(e, r))
            && (s.health == Healthy <==>
                  forall r :: r in s.regional ==> s.regional[r].state == Completed || s.regional[r].state == Verified)
            && (s.health == Unhealthy <==> exists r :: r in s.regional && s.regional[r].state == Failed)
  {
    ReachedFits(e, events, id);
    HealthOfStatus(e, Reached(e, events).tracker[id]);
  }

  lemma ReachedFits(e: Env, events: seq<Event>, id: BackupId)
    requires Reachable(e, events) && id in Reached(e, events).tracker
    ensures StatusFits(e, Reached(e, events).tracker[id])
  {
    StartInv(e);
    RunKeepsFit(e, Start(), events);
  }

  lemma HealthOfStatus(e: Env, s: Status)
    requires StatusFits(e, s) && exists r :: IsTarget(e, r)
    ensures s.health == Healthy <==>
              forall r :: r in s.regional ==> s.regional[r].state == Completed || s.regional[r].state == Verified
    ensures s.health == Unhealthy <==> exists r :: r in s.regional && s.regional[r].state == Failed
  {
    var r :| IsTarget(e, r);
    assert r in s.regional;
  }

  /** A backup once reported unhealthy is reported unhealthy for the rest of every run. */
  lemma UnhealthyForever(e: Env, events: seq<Event>, more: seq<Event>, id: BackupId)
    requires Reachable(e, events) && EnabledRun(e, Reached(e, events), more)
    requires id in Reached(e, events).tracker && Reached(e, events).tracker[id].health == Unhealthy
    ensures var tracker := After(e, Reached(e, events), more).tracker; id in tracker && tracker[id].health == Unhealthy
  {
    StartInv(e);
    RunKeepsFit(e, Start(), events);
    ReachedInv(e, events);
    var w := Reached(e, events);
    var r := FailedRegion(e, w.tracker[id]);
    FailedIsSettled(e, w, (id, r));
    SettledStays(e, w, more, (id, r));
    RunKeepsFit(e, w, more);
    FailedIsUnhealthy(e, After(e, w, more).tracker, (id, r));
  }

  lemma FailedRegion(e: Env, s: Status) returns (r: Region)
    requires StatusFits(e, s) && s.health == Unhealthy
    ensures r in s.regional && s.regional[r].state == Failed
  {
    r :| r in s.regional && s.regional[r].state == Failed;
  }

  lemma FailedIsSettled(e: Env, w: World, k: Key)
    requires KeyInv(e, w, k) && Record(w.tracker, k).Some? && Record(w.tracker, k).value.state == Failed
    ensures Settled(e, w, k)
  {
  }

  lemma FailedIsUnhealthy(e: Env, tracker: map<BackupId, Status>, k: Key)
    requires TrackerFits(e, tracker) && Record(tracker, k).Some? && Record(tracker, k).value.state == Failed
    ensures k.0 in tracker && tracker[k.0].health == Unhealthy
  {
    assert StatusFits(e, tracker[k.0]);
  }

  // ---------------------------------------------------------------- the order of the queue

  /** A part in descending priority, then exactly the retries appended since the last enqueue, all of keys that were
      attempted before. */
  ghost predicate QueueFits(w: World) {
    && |w.retries| <= |w.queue|
    && Descending(w.queue[..|w.queue| - |w.retries|])
    && w.queue[|w.queue| - |w.retries|..] == w.retries
    && forall t :: t in w.retries ==> t.Key() in w.attempts
  }

  lemma NextKeepsQueueFit(e: Env, w: World, ev: Event)
    requires Inv(e, w) && Enabled(e, w, ev) && QueueFits(w)
    ensures QueueFits(Next(e, w, ev))
  {
    Untouched(e, w, ev);
    match ev
    case ClientActs(c) => ClientKeepsQueueFit(e, w, c);
    case WorkerActs(i) =>
      assert KeyInv(e, w, w.workers[i].task.Key());
      WorkerKeepsQueueFit(e, w, i);
    case Drain => DrainKeepsQueueFit(e, w);
    case _ =>
  }

  lemma ClientKeepsQueueFit(e: Env, w: World, c: nat)
    requires QueueFits(w) && c in w.clients
    ensures QueueFits(ClientAct(e, w, c))
  {
    var client := w.clients[c];
    if client.pc == InQueue {
      var x := ClientAct(e, w, c);
      SortDescends(w.queue + TasksFor(e.policy.targetRegions, e.primaryRegion, client.id, client.metadata, client.priority));
      assert x.queue[..|x.queue| - |x.retries|] == x.queue && x.queue[|x.queue| - |x.retries|..] == [];
    }
  }

  /** What a worker's section does to the queue and its history. */
  lemma WorkerQueue(e: Env, w: World, i: nat)
    requires i in w.workers
    ensures var x := WorkerAct(e, w, i);
            var pushed := if w.workers[i].pc.PushingRetry? then [w.workers[i].task] else [];
            x.queue == w.queue + pushed && x.retries == w.retries + pushed && x.attempts == w.attempts
  {
    assert w.queue + [] == w.queue && w.retries + [] == w.retries;
  }

  lemma RetryWasAttempted(e: Env, w: World, i: nat)
    requires i in w.workers && KeyInv(e, w, w.workers[i].task.Key())
    ensures w.workers[i].task.Key() in w.attempts
  {
    assert OnKey(w, i, w.workers[i].task.Key());
  }

  lemma WorkerKeepsQueueFit(e: Env, w: World, i: nat)
    requires QueueFits(w) && i in w.workers && KeyInv(e, w, w.workers[i].task.Key())
    ensures QueueFits(WorkerAct(e, w, i))
  {
    WorkerQueue(e, w, i);
    RetryWasAttempted(e, w, i);
    PushedFits(w, WorkerAct(e, w, i), w.workers[i].task);
  }

  lemma PushedFits(w: World, x: World, task: Task)
    requires QueueFits(w) && x.attempts == w.attempts && task.Key() in w.attempts
    requires (x.queue == w.queue + [task] && x.retries == w.retries + [task])
             || (x.queue == w.queue + [] && x.retries == w.retries + [])
    ensures QueueFits(x)
  {
    LengthenedFits(w.queue, w.retries, task);
    assert w.queue + [] == w.queue && w.retries + [] == w.retries;
  }

  lemma LengthenedFits(q: seq<Task>, tail: seq<Task>, task: Task)
    requires |tail| <= |q| && q[|q| - |tail|..] == tail
    ensures var n := |q + [task]| - |tail + [task]|;
            (q + [task])[..n] == q[..|q| - |tail|] && (q + [task])[n..] == tail + [task]
  {
    assert |q + [task]| - |tail + [task]| == |q| - |tail|;
  }

  lemma {:induction false} AttemptedStays(attempts: map<Key, nat>, batch: seq<Task>, k: Key)
    requires k in attempts
    ensures k in BumpAll(attempts, batch)
  {
    if batch != [] {
      AttemptedStays(attempts, batch[..|batch| - 1], k);
    }
  }

  lemma DrainKeepsQueueFit(e: Env, w: World)
    requires QueueFits(w)
    ensures QueueFits(DrainAct(e, w))
  {
    var n := BatchSize(e.policy, w.queue);
    if n > 0 {
      var q, r := w.queue[n..], DrainAct(e, w).retries;
      ShortenedFits(w.queue, w.retries, n, r);
      assert DrainAct(e, w).queue == q;
      forall t | t in r
        ensures t.Key() in DrainAct(e, w).attempts
      {
        assert t in w.retries;
        AttemptedStays(w.attempts, w.queue[..n], t.Key());
      }
    }
  }

  /** Taking a prefix off a descending part and its tail. */
  lemma ShortenedFits(q: seq<Task>, tail: seq<Task>, n: nat, r: seq<Task>)
    requires |tail| <= |q| && n <= |q| && Descending(q[..|q| - |tail|]) && q[|q| - |tail|..] == tail
    requires r == if |tail| <= |q| - n then tail else tail[|tail| - (|q| - n)..]
    ensures |r| <= |q[n..]| && Descending(q[n..][..|q[n..]| - |r|]) && q[n..][|q[n..]| - |r|..] == r
  {
    if |tail| <= |q| - n {
      assert q[n..][..|q| - n - |r|] == q[..|q| - |tail|][n..];
      assert q[n..][|q| - n - |r|..] == q[|q| - |tail|..];
    } else {
      assert q[n..] == r;
      assert q[n..][..0] == [];
    }
  }

  lemma {:induction false} RunKeepsQueueFit(e: Env, w: World, events: seq<Event>)
    requires DistinctTargets(e) && Inv(e, w) && QueueFits(w) && EnabledRun(e, w, events)
    ensures QueueFits(After(e, w, events))
    decreases |events|
  {
    if events != [] {
      NextKeepsQueueFit(e, w, events[0]);
      NextKeepsInv(e, w, events[0]);
      RunKeepsQueueFit(e, Next(e, w, events[0]), events[1..]);
    }
  }

  /** In every reachable state the queue is a part in descending priority followed by the retries appended since the last
      enqueue. */
  lemma QueueOrder(e: Env, events: seq<Event>)
    requires Reachable(e, events)
    ensures QueueFits(Reached(e, events))
  {
    StartInv(e);
    RunKeepsQueueFit(e, Start(), events);
  }

  // ---------------------------------------------------------------- verified copies

  /** What each region's store answers for the backup; the primary region's store is the primary. */
  ghost function StoresOf(e: Env, w: World, id: BackupId): map<Region, Copy>
    requires id in e.primary
  {
    map r | r in {e.primaryRegion} + (set k | k in w.remote && k.0 == id :: k.1) ::
      if r == e.primaryRegion then e.primary[id] else w.remote[(id, r)]
  }

  /** With a hash without collisions and an intact primary, once every target region is verified the consistency
      report over targets and primary is good exactly when every remote copy kept the primary's timestamp;
      in particular whenever the stores keep what they are given. */
  lemma VerifiedRegionsAreConsistent(e: Env, events: seq<Event>, id: BackupId, regions: seq<Region>)
    requires Reachable(e, events) && id in e.primary && Injective(e.hash) && SelfConsistent(e.primary[id], e.hash)
    requires forall r :: r in regions ==> r == e.primaryRegion || IsTarget(e, r)
    requires forall r :: IsTarget(e, r) ==>
               Record(Reached(e, events).tracker, (id, r)).Some? && Record(Reached(e, events).tracker, (id, r)).value.state == Verified
    ensures var stores := StoresOf(e, Reached(e, events), id);
            (forall r :: r in regions ==> CheckCopy(Lookup(stores, r), e.primary[id], e.hash).Good()) <==>
            (forall r :: r in regions && r != e.primaryRegion ==>
               r in stores && stores[r].metadata.timestamp == e.primary[id].metadata.timestamp)
  {
    ReachedInv(e, events);
    var w := Reached(e, events);
    var stores := StoresOf(e, w, id);
    forall r | r in regions && r != e.primaryRegion
      ensures r in stores
      ensures CheckCopy(Lookup(stores, r), e.primary[id], e.hash).Good() <==>
                stores[r].metadata.timestamp == e.primary[id].metadata.timestamp
    {
      VerifiedIsGood(e, w, (id, r));
      assert (id, r) in w.remote;
      VerifiedIsConsistentUpToTimestamp(stores[r], e.primary[id], e.hash);
    }
    assert CheckCopy(Lookup(stores, e.primaryRegion), e.primary[id], e.hash).Good();
  }

  lemma VerifiedIsGood(e: Env, w: World, k: Key)
    requires Inv(e, w) && Record(w.tracker, k).Some? && Record(w.tracker, k).value.state == Verified
    ensures GoodRemote(e, w, k)
  {
    assert KeyInv(e, w, k);
    SettledHasNoWorker(e, w, k);
  }
}
