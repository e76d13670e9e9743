/** The replicator under repeated backup ids: one task per unfinished key exactly as long as no client queues a backup that is
    already registered. */
module ReplicationResubmission {
  import opened Outcomes
  import opened Replication
  import opened ReplicationProtocol
  import opened ReplicationSafety
  import opened ReplicationResults
  import opened ReplicationExamples

  // ---------------------------------------------------------------- runs of any kind

  ghost predicate AnyRun(e: Env, w: World, events: seq<Event>)
    decreases |events|
  {
    events == [] || (Possible(e, w, events[0]) && AnyRun(e, Next(e, w, events[0]), events[1..]))
  }

  ghost function Then(e: Env, w: World, events: seq<Event>): World
    requires AnyRun(e, w, events)
    decreases |events|
  {
    if events == [] then w else Then(e, Next(e, w, events[0]), events[1..])
  }

  /** Every registered key has one task, queued or in flight, until it is final or orphaned, and none from then on. */
  ghost predicate OneTaskEach(e: Env, w: World) {
    forall k: Key :: Record(w.tracker, k).Some? ==> TasksFit(e, w, k)
  }

  ghost predicate TasksFit(e: Env, w: World, k: Key)
    requires Record(w.tracker, k).Some?
  {
    Count(w.queue, k) + |Owners(w, k)| == if Final(e.policy, Record(w.tracker, k).value.state) || k in w.orphaned then 0 else 1
  }

  ghost predicate AlwaysOneTask(e: Env, w: World, events: seq<Event>)
    requires AnyRun(e, w, events)
    decreases |events|
  {
    OneTaskEach(e, w) && (events == [] || AlwaysOneTask(e, Next(e, w, events[0]), events[1..]))
  }

  // ---------------------------------------------------------------- fresh runs keep it

  lemma OneTaskInInv(e: Env, w: World)
    requires Inv(e, w)
    ensures OneTaskEach(e, w)
  {
    forall k: Key | Record(w.tracker, k).Some?
      ensures TasksFit(e, w, k)
    {
      OneTaskIn(e, w, k);
    }
  }

  lemma {:induction false} FreshKeepsOneTask(e: Env, w: World, events: seq<Event>)
    requires DistinctTargets(e) && Inv(e, w) && EnabledRun(e, w, events)
    ensures AnyRun(e, w, events) && AlwaysOneTask(e, w, events)
    decreases |events|
  {
    OneTaskInInv(e, w);
    if events != [] {
      NextKeepsInv(e, w, events[0]);
      FreshKeepsOneTask(e, Next(e, w, events[0]), events[1..]);
    }
  }

  // ---------------------------------------------------------------- and only they do

  /** A client that queues a registered backup gives its keys a task too many. */
  lemma RequeueDoubles(e: Env, w: World, c: nat, r: Region)
    requires DistinctTargets(e) && Inv(e, w) && TrackerFits(e, w.tracker) && IsTarget(e, r)
    requires c in w.clients && w.clients[c].pc == InQueue && w.clients[c].id in w.tracker
    ensures !OneTaskEach(e, ClientAct(e, w, c))
  {
    var x, k := ClientAct(e, w, c), (w.clients[c].id, r);
    assert StatusFits(e, w.tracker[k.0]);
    OneTaskIn(e, w, k);
    CountAfterEnqueue(e, w, c, k);
    assert Owners(x, k) == Owners(w, k);
    assert Record(x.tracker, k) == Record(w.tracker, k) && !TasksFit(e, x, k);
  }

  lemma {:induction false} StaleBreaksOneTask(e: Env, w: World, events: seq<Event>, r: Region)
    requires DistinctTargets(e) && Inv(e, w) && TrackerFits(e, w.tracker) && IsTarget(e, r)
    requires AnyRun(e, w, events) && !EnabledRun(e, w, events)
    ensures !AlwaysOneTask(e, w, events)
    decreases |events|
  {
    var ev := events[0];
    if Fresh(w, ev) {
      NextKeepsInv(e, w, ev);
      NextKeepsFit(e, w, ev);
      StaleBreaksOneTask(e, Next(e, w, ev), events[1..], r);
    } else {
      RequeueDoubles(e, w, ev.c, r);
      assert Next(e, w, ev) == ClientAct(e, w, ev.c);
    }
  }

  /** For any run at all of a policy with a remote region: one task per unfinished key in all its states, exactly when no
      client in it queues a backup that already has a record. */
  lemma OneTaskExactlyWhenFresh(e: Env, events: seq<Event>, r: Region)
    requires DistinctTargets(e) && AnyRun(e, Start(), events) && IsTarget(e, r)
    ensures AlwaysOneTask(e, Start(), events) <==> EnabledRun(e, Start(), events)
  {
    StartInv(e);
    if EnabledRun(e, Start(), events) {
      FreshKeepsOneTask(e, Start(), events);
    } else {
      StaleBreaksOneTask(e, Start(), events, r);
    }
  }

  // ---------------------------------------------------------------- a failing run

  lemma {:induction false} FreshThenAny(e: Env, w: World, a: seq<Event>, b: seq<Event>)
    requires EnabledRun(e, w, a) && AnyRun(e, After(e, w, a), b)
    ensures AnyRun(e, w, a + b) && Then(e, w, a + b) == Then(e, After(e, w, a), b)
    decreases |a|
  {
    if a == [] {
      assert a + b == b;
    } else {
      FreshThenAny(e, Next(e, w, a[0]), a[1..], b);
      assert (a + b)[1..] == a[1..] + b && (a + b)[0] == a[0];
    }
  }

  /** A second submission of the registered backup, up to the queueing of its tasks. */
  lemma Requeues(e: Env, w: World, id: BackupId, metadata: Metadata)
    requires w == Start().(queue := w.queue, tracker := w.tracker)
    ensures var events := [Submit(0, id, metadata, Normal), Acquire(TheClient(0)), ClientActs(0)];
            && AnyRun(e, w, events)
            && Then(e, w, events).queue == Sorted(w.queue + TasksFor(e.policy.targetRegions, e.primaryRegion, id, metadata, Normal))
            && Then(e, w, events).tracker == w.tracker
  {
    var events := [Submit(0, id, metadata, Normal), Acquire(TheClient(0)), ClientActs(0)];
    var a := Next(e, w, events[0]);
    assert a.clients == map[0 := Client(id, metadata, Normal, WantQueue)];
    assert forall u, held :: !Holds(a, u, held);
    var b := Next(e, a, events[1]);
    assert b.clients == map[0 := Client(id, metadata, Normal, InQueue)];
    var c := Next(e, b, events[2]);
    assert events[1..][0] == events[1] && events[1..][1..] == events[2..] && events[2..][0] == events[2] && events[2..][1..] == [];
    assert AnyRun(e, c, []) && Then(e, c, []) == c;
    assert AnyRun(e, b, events[2..]) && Then(e, b, events[2..]) == c;
    assert AnyRun(e, a, events[1..]) && Then(e, a, events[1..]) == c;
  }

  lemma TwoTasks(task: Task)
    ensures Count(Sorted([task] + [task]), task.Key()) == 2
  {
    SortKeepsCount([task] + [task], task.Key());
    CountAppends([task], [task], task.Key());
    assert [task][..0] == [];
    assert Count([task], task.Key()) == 1;
  }

  /** One backup submitted twice: its only region has two tasks in the queue. */
  lemma ResubmissionDoubles(e: Env, id: BackupId, r: Region)
    requires Setting(e, id, r)
    ensures var metadata := e.primary[id].metadata;
            var events := RegisterRun(id, metadata) + [Submit(0, id, metadata, Normal), Acquire(TheClient(0)), ClientActs(0)];
            && AnyRun(e, Start(), events)
            && Record(Then(e, Start(), events).tracker, (id, r)).Some?
            && Count(Then(e, Start(), events).queue, (id, r)) == 2
  {
    var metadata := e.primary[id].metadata;
    var task := Task(id, e.primaryRegion, r, metadata, Normal);
    Registers(e, id, metadata);
    OneTask(e, id, r, metadata);
    TasksForOne(r, e.primaryRegion, id, metadata);
    var w := After(e, Start(), RegisterRun(id, metadata));
    Requeues(e, w, id, metadata);
    FreshThenAny(e, Start(), RegisterRun(id, metadata), [Submit(0, id, metadata, Normal), Acquire(TheClient(0)), ClientActs(0)]);
    TwoTasks(task);
  }
}
