/** What the replicator's tasks, workers and records say in every run: who is to copy what, how many at once, and how much
    was copied. */
module ReplicationWork {
  import opened Outcomes
  import opened Replication
  import opened ReplicationProtocol
  import opened ReplicationSafety
  import opened ReplicationResults
  import opened ReplicationResubmission

  // ---------------------------------------------------------------- what a submission queues

  /** A submission queues exactly one kind of task for each target region besides the primary, with its own id, metadata and
      priority, from the primary. */
  lemma {:induction false} SubmittedTasks(regions: seq<Region>, primary: Region, id: BackupId, metadata: Metadata, priority: Priority, t: Task)
    ensures t in TasksFor(regions, primary, id, metadata, priority) <==>
              && t.target in regions && t.target != primary
              && t.backupId == id && t.source == primary && t.metadata == metadata && t.priority == priority
  {
    if regions != [] {
      var front, last := regions[..|regions| - 1], regions[|regions| - 1];
      SubmittedTasks(front, primary, id, metadata, priority, t);
      assert regions == front + [last];
    }
  }

  lemma {:induction false} SortedHas(q: seq<Task>, p: Priority, t: Task)
    ensures t in OfPriority(q, p) <==> t in q && t.priority == p
  {
    if q != [] {
      SortedHas(q[..|q| - 1], p, t);
      assert q == q[..|q| - 1] + [q[|q| - 1]];
    }
  }

  lemma SortKeepsTasks(q: seq<Task>, t: Task)
    ensures t in Sorted(q) <==> t in q
  {
    SortedHas(q, Critical, t);
    SortedHas(q, High, t);
    SortedHas(q, Normal, t);
    SortedHas(q, Low, t);
  }

  // ---------------------------------------------------------------- every task copies from the primary to a target

  predicate TaskFits(e: Env, t: Task) {
    t.source == e.primaryRegion && IsTarget(e, t.target)
  }

  /** Queued tasks and workers' tasks copy from the primary to a target, and no more workers than allowed are numbered. */
  ghost predicate WorkFits(e: Env, w: World) {
    && (forall i :: 0 <= i < |w.queue| ==> TaskFits(e, w.queue[i]))
    && (forall i :: i in w.workers ==> i < e.policy.maxParallel && TaskFits(e, w.workers[i].task))
  }

  lemma ClientKeepsWork(e: Env, w: World, c: nat)
    requires WorkFits(e, w) && c in w.clients
    ensures WorkFits(e, ClientAct(e, w, c))
  {
    var client, x := w.clients[c], ClientAct(e, w, c);
    if client.pc == InQueue {
      var new_ := TasksFor(e.policy.targetRegions, e.primaryRegion, client.id, client.metadata, client.priority);
      forall i | 0 <= i < |x.queue|
        ensures TaskFits(e, x.queue[i])
      {
        var t := x.queue[i];
        SortKeepsTasks(w.queue + new_, t);
        SubmittedTasks(e.policy.targetRegions, e.primaryRegion, client.id, client.metadata, client.priority, t);
      }
    }
  }

  lemma WorkerKeepsWork(e: Env, w: World, i: nat)
    requires WorkFits(e, w) && i in w.workers
    ensures WorkFits(e, WorkerAct(e, w, i))
  {
    var effect := WorkerEffect(e, w, w.workers[i].task, w.workers[i].pc);
    assert effect.queue == w.queue || effect.queue == w.queue + [w.workers[i].task];
  }

  predicate SizeFits(e: Env, worker: Worker) {
    worker.pc.Storing? ==> worker.task.backupId in e.primary && worker.pc.bytes == |e.primary[worker.task.backupId].data|
  }

  /** Where a worker comes from, after an event other than a locked section: it was there with the same task, and if it is now
      storing then as much as before or the primary's size; or it is new, with a task of the queue's front. */
  predicate CameFrom(e: Env, w: World, i: nat, worker: Worker) {
    || (i in w.workers && worker.task == w.workers[i].task && (worker.pc == w.workers[i].pc || SizeFits(e, worker)))
    || (i < BatchSize(e.policy, w.queue) && worker == Worker(w.queue[i], Starting, false))
  }

  ghost predicate Moved(e: Env, w: World, x: World) {
    forall i :: i in x.workers ==> CameFrom(e, w, i, x.workers[i])
  }

  /** What such an event leaves: the records, and the queue but perhaps for its front. */
  predicate Leaves(e: Env, w: World, x: World) {
    x.tracker == w.tracker && (x.queue == w.queue || x.queue == w.queue[BatchSize(e.policy, w.queue)..])
  }

  lemma TransferMoves(e: Env, w: World, i: nat, t: Transfer)
    requires i in w.workers && (t.Stored? ==> w.workers[i].task.backupId in e.primary)
    ensures Moved(e, w, TransferAct(e, w, i, t)) && Leaves(e, w, TransferAct(e, w, i, t))
  {
  }

  lemma CheckMoves(e: Env, w: World, i: nat, check: Check)
    requires i in w.workers
    ensures Moved(e, w, CheckAct(e, w, i, check)) && Leaves(e, w, CheckAct(e, w, i, check))
  {
  }

  lemma EnterMoves(e: Env, w: World, t: Thread)
    ensures Moved(e, w, Enter(w, t)) && Leaves(e, w, Enter(w, t))
  {
  }

  lemma DrainMoves(e: Env, w: World)
    ensures Moved(e, w, DrainAct(e, w)) && Leaves(e, w, DrainAct(e, w))
  {
  }

  lemma OthersMove(e: Env, w: World, ev: Event)
    requires Named(e, w, ev) && !ev.ClientActs? && !ev.WorkerActs?
    ensures Moved(e, w, Next(e, w, ev)) && Leaves(e, w, Next(e, w, ev))
  {
    match ev
    case Acquire(t) => EnterMoves(e, w, t);
    case Drain => DrainMoves(e, w);
    case Transfers(i, transfer) => TransferMoves(e, w, i, transfer);
    case Checks(i, check) => CheckMoves(e, w, i, check);
    case _ =>
  }

  lemma MovedKeepsWork(e: Env, w: World, x: World)
    requires WorkFits(e, w) && Moved(e, w, x) && Leaves(e, w, x)
    ensures WorkFits(e, x)
  {
    forall i | i in x.workers
      ensures i < e.policy.maxParallel && TaskFits(e, x.workers[i].task)
    {
      assert CameFrom(e, w, i, x.workers[i]);
    }
  }

  lemma NextKeepsWork(e: Env, w: World, ev: Event)
    requires WorkFits(e, w) && Possible(e, w, ev)
    ensures WorkFits(e, Next(e, w, ev))
  {
    match ev
    case ClientActs(c) => ClientKeepsWork(e, w, c);
    case WorkerActs(i) => WorkerKeepsWork(e, w, i);
    case _ =>
      OthersMove(e, w, ev);
      MovedKeepsWork(e, w, Next(e, w, ev));
  }

  lemma {:induction false} RunKeepsWork(e: Env, w: World, events: seq<Event>)
    requires WorkFits(e, w) && AnyRun(e, w, events)
    ensures WorkFits(e, Then(e, w, events))
    decreases |events|
  {
    if events != [] {
      NextKeepsWork(e, w, events[0]);
      RunKeepsWork(e, Next(e, w, events[0]), events[1..]);
    }
  }

  lemma {:induction false} NumbersBelow(s: set<nat>, n: nat)
    requires forall i :: i in s ==> i < n
    ensures |s| <= n
  {
    if n == 0 {
      assert s == {};
    } else {
      NumbersBelow(s - {n - 1}, n - 1);
      assert s <= s - {n - 1} + {n - 1};
    }
  }

  /** In every run, resubmissions included, at most `max_parallel` workers are at work, each on a copy from the primary to a
      target region. */
  lemma WorkersAreBounded(e: Env, events: seq<Event>)
    requires AnyRun(e, Start(), events)
    ensures var w := Then(e, Start(), events);
            |w.workers| <= e.policy.maxParallel
            && forall i :: i in w.workers ==>
                 w.workers[i].task.source == e.primaryRegion && w.workers[i].task.target in e.policy.targetRegions
                 && w.workers[i].task.target != e.primaryRegion
  {
    RunKeepsWork(e, Start(), events);
    var w := Then(e, Start(), events);
    NumbersBelow(w.workers.Keys, e.policy.maxParallel);
    assert |w.workers| == |w.workers.Keys|;
  }

  /** A drained batch is the front of the queue, one worker for each task, as many as allowed. */
  lemma BatchIsFront(e: Env, w: World)
    requires e.policy.maxParallel > 0 && w.queue != []
    ensures var x := DrainAct(e, w);
            && |x.workers| >= 1 && |x.workers| + |x.queue| == |w.queue|
            && (|x.workers| == e.policy.maxParallel || x.queue == [])
            && (forall i :: 0 <= i < |x.workers| ==> i in x.workers && x.workers[i].task == w.queue[i])
            && x.queue == w.queue[|x.workers|..]
  {
    var x, n := DrainAct(e, w), BatchSize(e.policy, w.queue);
    NumbersUpTo(x.workers.Keys, n);
    assert |x.workers| == |x.workers.Keys|;
  }

  lemma {:induction false} NumbersUpTo(s: set<nat>, n: nat)
    requires forall i: nat :: i in s <==> i < n
    ensures |s| == n
  {
    if n == 0 {
      assert s == {};
    } else {
      NumbersUpTo(s - {n - 1}, n - 1);
      assert s == s - {n - 1} + {n - 1};
    }
  }

  // ---------------------------------------------------------------- how much was copied

  predicate BytesFit(e: Env, k: Key, r: Regional) {
    && (r.state in {Pending, InProgress} ==> r.replicatedBytes == 0)
    && (r.state in {Completed, Verifying, Verified} ==> k.0 in e.primary && r.replicatedBytes == |e.primary[k.0].data|)
  }

  ghost predicate Copied(e: Env, w: World) {
    && (forall k: Key :: Record(w.tracker, k).Some? ==> BytesFit(e, k, Record(w.tracker, k).value))
    && (forall i :: i in w.workers ==> SizeFits(e, w.workers[i]))
  }

  lemma RecordAfterUpdate(tracker: map<BackupId, Status>, k: Key, state: State, bytes: Option<nat>, other: Key)
    ensures Record(UpdateStatus(tracker, k, state, bytes), other) ==
              if other == k && Record(tracker, k).Some? then Some(Updated(Record(tracker, k).value, state, bytes))
              else Record(tracker, other)
  {
  }

  /** What the worker's section does to the records. */
  lemma SectionKeepsBytes(e: Env, w: World, task: Task, pc: Pc, k: Key)
    requires Record(w.tracker, task.Key()).Some? ==> BytesFit(e, task.Key(), Record(w.tracker, task.Key()).value)
    requires Record(w.tracker, k).Some? ==> BytesFit(e, k, Record(w.tracker, k).value)
    requires Fits(e.policy, ViewOf(e, w, task.Key()), pc) && SizeFits(e, Worker(task, pc, true))
    ensures var effect := WorkerEffect(e, w, task, pc);
            && (Record(effect.tracker, k).Some? ==> BytesFit(e, k, Record(effect.tracker, k).value))
            && (effect.next.Some? ==> SizeFits(e, Worker(task, effect.next.value, false)))
  {
    var own := task.Key();
    match pc
    case Starting => RecordAfterUpdate(w.tracker, own, InProgress, None, k);
    case Storing(bytes) => RecordAfterUpdate(w.tracker, own, Completed, Some(bytes), k);
    case VerifyStarting => RecordAfterUpdate(w.tracker, own, Verifying, None, k);
    case Concluding(result) => RecordAfterUpdate(w.tracker, own, result, None, k);
    case WritingRetry(count) => RecordAfterRetry(w.tracker, own, count + 1, k);
    case GivingUp => RecordAfterUpdate(w.tracker, own, Failed, None, k);
    case _ =>
  }

  lemma WorkerKeepsCopied(e: Env, w: World, i: nat)
    requires Inv(e, w) && Copied(e, w) && i in w.workers
    ensures Copied(e, WorkerAct(e, w, i))
  {
    var x, own := WorkerAct(e, w, i), w.workers[i].task.Key();
    assert KeyInv(e, w, own) && OnKey(w, i, own);
    forall k: Key
      ensures Record(x.tracker, k).Some? ==> BytesFit(e, k, Record(x.tracker, k).value)
      ensures i in x.workers ==> SizeFits(e, x.workers[i])
    {
      SectionKeepsBytes(e, w, w.workers[i].task, w.workers[i].pc, k);
    }
  }

  lemma ClientKeepsCopied(e: Env, w: World, c: nat)
    requires Copied(e, w) && c in w.clients
    ensures Copied(e, ClientAct(e, w, c))
  {
    var client, x := w.clients[c], ClientAct(e, w, c);
    if client.pc != InQueue {
      forall k: Key | Record(x.tracker, k).Some?
        ensures BytesFit(e, k, Record(x.tracker, k).value)
      {
        if k.0 != client.id {
          assert Record(x.tracker, k) == Record(w.tracker, k);
        }
      }
    }
  }

  lemma MovedKeepsCopied(e: Env, w: World, x: World)
    requires Copied(e, w) && Moved(e, w, x) && Leaves(e, w, x)
    ensures Copied(e, x)
  {
    forall k: Key | Record(x.tracker, k).Some?
      ensures BytesFit(e, k, Record(x.tracker, k).value)
    {
      assert Record(w.tracker, k).Some?;
    }
  }

  lemma NextKeepsCopied(e: Env, w: World, ev: Event)
    requires Inv(e, w) && Copied(e, w) && Enabled(e, w, ev)
    ensures Copied(e, Next(e, w, ev))
  {
    match ev
    case ClientActs(c) => ClientKeepsCopied(e, w, c);
    case WorkerActs(i) => WorkerKeepsCopied(e, w, i);
    case _ =>
      OthersMove(e, w, ev);
      MovedKeepsCopied(e, w, Next(e, w, ev));
  }

  lemma {:induction false} RunKeepsCopied(e: Env, w: World, events: seq<Event>)
    requires DistinctTargets(e) && Inv(e, w) && Copied(e, w) && EnabledRun(e, w, events)
    ensures Copied(e, After(e, w, events))
    decreases |events|
  {
    if events != [] {
      NextKeepsInv(e, w, events[0]);
      NextKeepsCopied(e, w, events[0]);
      RunKeepsCopied(e, Next(e, w, events[0]), events[1..]);
    }
  }

  /** In every reachable state a region that is completed, being verified or verified records the size of the primary's data,
      and one not yet copied records nothing. */
  lemma BytesAreHonest(e: Env, events: seq<Event>, k: Key)
    requires Reachable(e, events) && Record(Reached(e, events).tracker, k).Some?
    ensures var r := Record(Reached(e, events).tracker, k).value;
            && (r.state in {Pending, InProgress} ==> r.replicatedBytes == 0)
            && (r.state in {Completed, Verifying, Verified} ==>
                  k.0 in e.primary && r.replicatedBytes == |e.primary[k.0].data|)
  {
    StartInv(e);
    RunKeepsCopied(e, Start(), events);
  }
}
