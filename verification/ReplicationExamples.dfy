/** Runs of the replicator in which it does not do what it promises. */
module ReplicationExamples {
  import opened Outcomes
  import opened Replication
  import opened ReplicationProtocol
  import opened ReplicationSafety
  import opened ReplicationResults

  lemma {:induction false} RunsJoin(e: Env, w: World, a: seq<Event>, b: seq<Event>)
    requires EnabledRun(e, w, a) && EnabledRun(e, After(e, w, a), b)
    ensures EnabledRun(e, w, a + b) && After(e, w, a + b) == After(e, After(e, w, a), b)
    decreases |a|
  {
    if a == [] {
      assert a + b == b;
    } else {
      RunsJoin(e, Next(e, w, a[0]), a[1..], b);
      assert (a + b)[1..] == a[1..] + b;
    }
  }

  lemma OneStep(e: Env, w: World, ev: Event)
    requires Enabled(e, w, ev)
    ensures EnabledRun(e, w, [ev]) && After(e, w, [ev]) == Next(e, w, ev)
  {
    assert [ev][1..] == [];
    assert EnabledRun(e, Next(e, w, ev), []);
  }

  lemma TwoSteps(e: Env, w: World, a: Event, b: Event)
    requires Enabled(e, w, a) && Enabled(e, Next(e, w, a), b)
    ensures EnabledRun(e, w, [a, b]) && After(e, w, [a, b]) == Next(e, Next(e, w, a), b)
  {
    OneStep(e, w, a);
    OneStep(e, Next(e, w, a), b);
    RunsJoin(e, w, [a], [b]);
    assert [a] + [b] == [a, b];
  }

  // ---------------------------------------------------------------- one client

  /** Only client 0 is at work, at this position, with the backup `id`. */
  ghost predicate Submitting(w: World, id: BackupId, metadata: Metadata, pc: ClientPc) {
    && w == Start().(queue := w.queue, clients := map[0 := Client(id, metadata, Normal, pc)])
  }

  lemma ClientSection(e: Env, w: World, id: BackupId, metadata: Metadata, pc: ClientPc)
    requires Submitting(w, id, metadata, pc) && pc in {WantQueue, WantTracker}
    ensures var x := Enter(w, TheClient(0));
            && Submitting(x, id, metadata, if pc == WantQueue then InQueue else InTracker)
            && EnabledRun(e, w, [Acquire(TheClient(0)), ClientActs(0)])
            && After(e, w, [Acquire(TheClient(0)), ClientActs(0)]) == ClientAct(e, x, 0)
  {
    var x := Enter(w, TheClient(0));
    assert x.clients == map[0 := Client(id, metadata, Normal, if pc == WantQueue then InQueue else InTracker)];
    assert forall u, held :: Holds(w, u, held) ==> u == TheClient(0) && pc == WantTracker && held == Queue;
    assert Free(w, Wants(w, TheClient(0)).value);
    TwoSteps(e, w, Acquire(TheClient(0)), ClientActs(0));
  }

  function RegisterRun(id: BackupId, metadata: Metadata): seq<Event> {
    [Submit(0, id, metadata, Normal)] + ([Acquire(TheClient(0)), ClientActs(0)] + [Acquire(TheClient(0)), ClientActs(0)])
  }

  /** A client registers the first backup. */
  lemma Registers(e: Env, id: BackupId, metadata: Metadata)
    ensures EnabledRun(e, Start(), RegisterRun(id, metadata))
    ensures After(e, Start(), RegisterRun(id, metadata)) ==
              Start().(queue := Sorted(TasksFor(e.policy.targetRegions, e.primaryRegion, id, metadata, Normal)),
                       tracker := map[id := InitialStatus(e.policy.targetRegions, e.primaryRegion)])
  {
    var section := [Acquire(TheClient(0)), ClientActs(0)];
    var w := Next(e, Start(), Submit(0, id, metadata, Normal));
    OneStep(e, Start(), Submit(0, id, metadata, Normal));
    ClientSection(e, w, id, metadata, WantQueue);
    var v := After(e, w, section);
    var tasks := TasksFor(e.policy.targetRegions, e.primaryRegion, id, metadata, Normal);
    assert [] + tasks == tasks;
    assert v.clients == map[0 := Client(id, metadata, Normal, WantTracker)];
    ClientSection(e, v, id, metadata, WantTracker);
    assert After(e, v, section).clients == map[];
    RunsJoin(e, w, section, section);
    RunsJoin(e, Start(), [Submit(0, id, metadata, Normal)], section + section);
  }

  /** A policy whose only target is the primary region: the backup is reported `Degraded`, and no event ever changes
      that, although no copy is missing. */
  lemma PrimaryAloneStaysDegraded(e: Env, id: BackupId, metadata: Metadata, more: seq<Event>)
    requires e.policy.targetRegions == [e.primaryRegion]
    requires EnabledRun(e, Start(), RegisterRun(id, metadata) + more)
    ensures var tracker := After(e, Start(), RegisterRun(id, metadata) + more).tracker;
            id in tracker && tracker[id].health == Degraded && HealthOf(tracker[id].regional) == Healthy
  {
    Registers(e, id, metadata);
    var w := After(e, Start(), RegisterRun(id, metadata));
    RunSplits(e, Start(), RegisterRun(id, metadata), more);
    TrackedStays(e, w, more, id);
    StartInv(e);
    RunKeepsFit(e, Start(), RegisterRun(id, metadata) + more);
    NothingMissing(e, After(e, w, more).tracker, id);
  }

  lemma NothingMissing(e: Env, tracker: map<BackupId, Status>, id: BackupId)
    requires TrackerFits(e, tracker) && id in tracker && e.policy.targetRegions == [e.primaryRegion]
    ensures tracker[id].health == Degraded && HealthOf(tracker[id].regional) == Healthy
  {
    assert StatusFits(e, tracker[id]);
    assert forall r :: !IsTarget(e, r);
    assert tracker[id].regional == map[];
  }

  lemma {:induction false} RunSplits(e: Env, w: World, a: seq<Event>, b: seq<Event>)
    requires EnabledRun(e, w, a + b)
    ensures EnabledRun(e, w, a) && EnabledRun(e, After(e, w, a), b) && After(e, w, a + b) == After(e, After(e, w, a), b)
    decreases |a|
  {
    if a == [] {
      assert a + b == b;
    } else {
      assert (a + b)[0] == a[0] && (a + b)[1..] == a[1..] + b;
      RunSplits(e, Next(e, w, a[0]), a[1..], b);
    }
  }

  lemma TrackedStep(e: Env, w: World, ev: Event, id: BackupId)
    requires Enabled(e, w, ev) && id in w.tracker
    ensures id in Next(e, w, ev).tracker
  {
    Untouched(e, w, ev);
    match ev
    case WorkerActs(i) => TrackedIdsKept(e, w, i);
    case ClientActs(c) =>
    case _ =>
  }

  lemma {:induction false} TrackedStays(e: Env, w: World, events: seq<Event>, id: BackupId)
    requires EnabledRun(e, w, events) && id in w.tracker
    ensures id in After(e, w, events).tracker
    decreases |events|
  {
    if events != [] {
      TrackedStep(e, w, events[0], id);
      TrackedStays(e, Next(e, w, events[0]), events[1..], id);
    }
  }

  // ---------------------------------------------------------------- one worker

  /** Only worker 0 is at work, at this position and outside its lock. */
  ghost predicate Working(w: World, task: Task, pc: Pc) {
    && w.workers == map[0 := Worker(task, pc, false)] && w.clients == map[] && w.observers == map[]
    && w.dispatcher == Barrier && Record(w.tracker, task.Key()).Some?
  }

  lemma WorkerSection(e: Env, w: World, task: Task, pc: Pc)
    requires Working(w, task, pc) && (pc.Starting? || pc.Storing? || pc.VerifyStarting? || pc.Concluding?)
    ensures var events := [Acquire(TheWorker(0)), WorkerActs(0)];
            && EnabledRun(e, w, events)
            && var x := After(e, w, events);
            && x.remote == w.remote
            && Record(x.tracker, task.Key()).Some?
            && (WorkerEffect(e, w, task, pc).next.Some? ==> Working(x, task, WorkerEffect(e, w, task, pc).next.value))
            && (pc.Concluding? ==> Record(x.tracker, task.Key()).value.state == pc.result)
            && (pc.VerifyStarting? ==> Record(x.tracker, task.Key()).value.state == Verifying)
  {
    var v := Enter(w, TheWorker(0));
    assert v.workers == map[0 := Worker(task, pc, true)];
    assert forall u, held :: !Holds(w, u, held);
    TwoSteps(e, w, Acquire(TheWorker(0)), WorkerActs(0));
    OwnEffect(e, v, task, pc);
  }

  /** One target region besides the primary, verification on, and a backup in the primary store. */
  ghost predicate Setting(e: Env, id: BackupId, r: Region) {
    && e.policy.targetRegions == [r] && r != e.primaryRegion && e.policy.verify && e.policy.maxParallel >= 1
    && id in e.primary && SelfConsistent(e.primary[id], e.hash)
  }

  lemma Dispatches(e: Env, w: World, task: Task)
    requires w == Start().(queue := [task], tracker := w.tracker) && e.policy.maxParallel >= 1
    requires Record(w.tracker, task.Key()).Some?
    ensures var events := [Tick] + [Acquire(TheDispatcher), Drain];
            EnabledRun(e, w, events) && Working(After(e, w, events), task, Starting)
  {
    var v := Next(e, w, Tick);
    OneStep(e, w, Tick);
    assert forall u, held :: !Holds(v, u, held);
    TwoSteps(e, v, Acquire(TheDispatcher), Drain);
    RunsJoin(e, w, [Tick], [Acquire(TheDispatcher), Drain]);
    var x := After(e, v, [Acquire(TheDispatcher), Drain]);
    assert x.workers == map[0 := Worker(task, Starting, false)];
  }

  lemma Transferred(e: Env, w: World, task: Task, copy: Copy)
    requires Working(w, task, Transferring) && task.backupId in e.primary
    ensures var events := [Transfers(0, Stored(copy))];
            && EnabledRun(e, w, events)
            && var x := After(e, w, events);
            Working(x, task, Storing(|e.primary[task.backupId].data|)) && x.remote == w.remote[task.Key() := copy]
  {
    OneStep(e, w, Transfers(0, Stored(copy)));
    assert After(e, w, [Transfers(0, Stored(copy))]).workers ==
           map[0 := Worker(task, Storing(|e.primary[task.backupId].data|), false)];
  }

  lemma Checked(e: Env, w: World, task: Task)
    requires Working(w, task, Checking) && GoodRemote(e, w, task.Key())
    ensures var events := [Checks(0, Read)];
            && EnabledRun(e, w, events)
            && Working(After(e, w, events), task, Concluding(Verified)) && After(e, w, events).remote == w.remote
  {
    OneStep(e, w, Checks(0, Read));
    assert After(e, w, [Checks(0, Read)]).workers == map[0 := Worker(task, Concluding(Verified), false)];
  }

  /** From a drained task to the check of whatever copy the store kept. */
  lemma ReachesCheck(e: Env, w: World, task: Task, copy: Copy) returns (events: seq<Event>)
    requires Working(w, task, Starting) && e.policy.verify && task.backupId in e.primary
    ensures EnabledRun(e, w, events)
    ensures var x := After(e, w, events);
            && Working(x, task, Checking) && Record(x.tracker, task.Key()).value.state == Verifying
            && task.Key() in x.remote && x.remote[task.Key()] == copy
  {
    var section, transfer := [Acquire(TheWorker(0)), WorkerActs(0)], [Transfers(0, Stored(copy))];
    var bytes := |e.primary[task.backupId].data|;
    WorkerSection(e, w, task, Starting);
    var a := After(e, w, section);
    Transferred(e, a, task, copy);
    var b := After(e, a, transfer);
    WorkerSection(e, b, task, Storing(bytes));
    var c := After(e, b, section);
    WorkerSection(e, c, task, VerifyStarting);
    RunsJoin(e, b, section, section);
    RunsJoin(e, a, transfer, section + section);
    RunsJoin(e, w, section, transfer + (section + section));
    events := section + (transfer + (section + section));
  }

  lemma OneTask(e: Env, id: BackupId, r: Region, metadata: Metadata)
    requires Setting(e, id, r)
    ensures var task := Task(id, e.primaryRegion, r, metadata, Normal);
            && Sorted(TasksFor(e.policy.targetRegions, e.primaryRegion, id, metadata, Normal)) == [task]
            && Record(map[id := InitialStatus(e.policy.targetRegions, e.primaryRegion)], task.Key()).Some?
  {
    TasksForOne(r, e.primaryRegion, id, metadata);
    DescendingIsSorted([Task(id, e.primaryRegion, r, metadata, Normal)]);
  }

  lemma TasksForOne(r: Region, primary: Region, id: BackupId, metadata: Metadata)
    requires r != primary
    ensures TasksFor([r], primary, id, metadata, Normal) == [Task(id, primary, r, metadata, Normal)]
  {
    assert [r][..0] == [];
    assert TasksFor([], primary, id, metadata, Normal) == [];
  }

  /** A run from the start to the check of the first backup's copy. */
  lemma StartToCheck(e: Env, id: BackupId, r: Region, copy: Copy) returns (events: seq<Event>)
    requires Setting(e, id, r)
    ensures Reachable(e, events)
    ensures var task := Task(id, e.primaryRegion, r, e.primary[id].metadata, Normal);
            var w := Reached(e, events);
            && Working(w, task, Checking) && Record(w.tracker, (id, r)).value.state == Verifying
            && (id, r) in w.remote && w.remote[(id, r)] == copy
  {
    var metadata := e.primary[id].metadata;
    var task := Task(id, e.primaryRegion, r, metadata, Normal);
    var register, dispatch := RegisterRun(id, metadata), [Tick] + [Acquire(TheDispatcher), Drain];
    Registers(e, id, metadata);
    OneTask(e, id, r, metadata);
    var w := After(e, Start(), register);
    Dispatches(e, w, task);
    var v := After(e, w, dispatch);
    var rest := ReachesCheck(e, v, task, copy);
    RunsJoin(e, w, dispatch, rest);
    RunsJoin(e, Start(), register, dispatch + rest);
    events := register + (dispatch + rest);
  }

  /** The remote store kept the data but another timestamp: the region is reported `Verified`, and the consistency report
      finds it inconsistent. */
  lemma VerifiedButInconsistent(e: Env, id: BackupId, r: Region, stamp: int) returns (events: seq<Event>)
    requires Setting(e, id, r) && stamp != e.primary[id].metadata.timestamp
    ensures Reachable(e, events)
    ensures var w := Reached(e, events);
            && Record(w.tracker, (id, r)).Some? && Record(w.tracker, (id, r)).value.state == Verified
            && (id, r) in w.remote && !CheckCopy(Some(w.remote[(id, r)]), e.primary[id], e.hash).Good()
  {
    var copy := Copy(e.primary[id].data, e.primary[id].metadata.(timestamp := stamp));
    var task := Task(id, e.primaryRegion, r, e.primary[id].metadata, Normal);
    var check, section := [Checks(0, Read)], [Acquire(TheWorker(0)), WorkerActs(0)];
    var before := StartToCheck(e, id, r, copy);
    var w := Reached(e, before);
    Checked(e, w, task);
    WorkerSection(e, After(e, w, check), task, Concluding(Verified));
    RunsJoin(e, w, check, section);
    RunsJoin(e, Start(), before, check + section);
    events := before + (check + section);
  }

  /** The region's storage cannot be found when the copy is to be checked: the region stays `Verifying`, whatever happens
      afterwards. */
  lemma VerifyingForever(e: Env, id: BackupId, r: Region, copy: Copy) returns (events: seq<Event>)
    requires Setting(e, id, r)
    ensures Reachable(e, events)
    ensures forall more | EnabledRun(e, Reached(e, events), more) ::
              var tracker := After(e, Reached(e, events), more).tracker;
              Record(tracker, (id, r)).Some? && Record(tracker, (id, r)).value.state == Verifying
  {
    var before := StartToCheck(e, id, r, copy);
    var w := Reached(e, before);
    OneStep(e, w, Checks(0, NoStorage));
    RunsJoin(e, Start(), before, [Checks(0, NoStorage)]);
    events := before + [Checks(0, NoStorage)];
    ReachedInv(e, events);
    var x := Reached(e, events);
    assert x.tracker == w.tracker && (id, r) in x.orphaned;
    forall more | EnabledRun(e, x, more)
      ensures Record(After(e, x, more).tracker, (id, r)) == Record(w.tracker, (id, r))
    {
      SettledStays(e, x, more, (id, r));
    }
  }
}
