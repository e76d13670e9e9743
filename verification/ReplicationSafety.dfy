/** Every interleaving of the replicator gives each unfinished (backup, region) exactly one task. */
module ReplicationSafety {
  import opened Outcomes
  import opened Replication
  import opened ReplicationProtocol
  import opened ReplicationLocks

  // ---------------------------------------------------------------- the invariant of one key

  /** The client has pushed the key's task and not yet stored its record. */
  ghost predicate Registering(e: Env, w: World, k: Key) {
    IsTarget(e, k.1) && exists c :: c in w.clients && w.clients[c].id == k.0 && w.clients[c].pc in {WantTracker, InTracker}
  }

  function Attempts(w: World, k: Key): nat {
    if k in w.attempts then w.attempts[k] else 0
  }

  /** Everything the protocol keeps about one key, apart from its workers. */
  datatype KeyView = KeyView(
    queued: nat, record: Option<Regional>, attempts: nat, orphaned: bool, good: bool, registering: bool, stored: bool)

  ghost function ViewOf(e: Env, w: World, k: Key): KeyView {
    KeyView(Count(w.queue, k), Record(w.tracker, k), Attempts(w, k), k in w.orphaned, GoodRemote(e, w, k),
            Registering(e, w, k), k.0 in e.primary)
  }

  predicate OnKey(w: World, i: nat, k: Key) {
    i in w.workers && w.workers[i].task.Key() == k
  }

  predicate Final(p: Policy, s: State) {
    s == Failed || s == Verified || (s == Completed && !p.verify)
  }

  /** A key without a record: at most the task of the client that is registering it. */
  predicate Unregistered(v: KeyView) {
    v.queued == (if v.registering then 1 else 0) && v.attempts == 0 && !v.orphaned
  }

  /** A key in flight: its worker's position tells its state, its retry count is one less than its attempts, and
      only a worker that has already pushed the retry shares the key with a queued task. */
  predicate Fits(p: Policy, v: KeyView, pc: Pc) {
    && v.record.Some? && !v.orphaned
    && var r := v.record.value;
    && v.queued == (if pc.WritingRetry? then 1 else 0)
    && v.attempts == r.retryCount + 1 <= p.maxRetries + 1
    && match pc
       case Starting => r.state in {Pending, InProgress}
       case Transferring => r.state == InProgress
       case Storing(_) => r.state == InProgress && v.stored
       case ReadingRetry => r.state == InProgress
       case PushingRetry(n) => r.state == InProgress && n == r.retryCount < p.maxRetries
       case WritingRetry(n) => r.state == InProgress && n == r.retryCount < p.maxRetries
       case GivingUp => r.state == InProgress && r.retryCount == p.maxRetries
       case VerifyStarting => r.state == Completed && p.verify && v.stored
       case Checking => r.state == Verifying && p.verify && v.stored
       case Concluding(s) => r.state == Verifying && p.verify && (s == Failed || (s == Verified && v.good))
  }

  /** A key without a worker: queued for its next attempt, or finished, or orphaned. */
  predicate AtRest(p: Policy, v: KeyView) {
    && v.record.Some?
    && var r := v.record.value;
    && r.retryCount <= p.maxRetries
    && if v.queued == 1 then v.attempts == r.retryCount && r.state in {Pending, InProgress} && !v.orphaned
       else v.queued == 0 && v.attempts == r.retryCount + 1
            && (if v.orphaned then r.state == Verifying else Final(p, r.state)) && (r.state == Verified ==> v.good)
  }

  ghost predicate Unworked(w: World, k: Key) {
    forall i :: !OnKey(w, i, k)
  }

  ghost predicate KeyInv(e: Env, w: World, k: Key) {
    var v := ViewOf(e, w, k);
    && (v.record == None ==> Unregistered(v) && Unworked(w, k))
    && (v.record.Some? && Unworked(w, k) ==> AtRest(e.policy, v))
    && (forall i :: OnKey(w, i, k) ==> Fits(e.policy, v, w.workers[i].pc))
    && (forall i, j :: OnKey(w, i, k) && OnKey(w, j, k) ==> i == j)
  }

  /** A client that has queued its tasks registers a new id. */
  ghost predicate ClientsFit(w: World) {
    forall c :: c in w.clients && w.clients[c].pc in {WantTracker, InTracker} ==> w.clients[c].id !in w.tracker
  }

  ghost predicate Inv(e: Env, w: World) {
    && (forall k: Key :: KeyInv(e, w, k))
    && (w.dispatcher != Barrier ==> w.workers == map[])
    && ClientsFit(w)
    && Excluded(w)
  }

  // ---------------------------------------------------------------- frames

  /** Nothing about the key changed but perhaps whether its worker is inside a lock. */
  lemma SameKey(e: Env, w: World, x: World, k: Key)
    requires KeyInv(e, w, k) && ViewOf(e, x, k) == ViewOf(e, w, k)
    requires forall i :: OnKey(x, i, k) <==> OnKey(w, i, k)
    requires forall i :: OnKey(x, i, k) ==> x.workers[i].pc == w.workers[i].pc
    ensures KeyInv(e, x, k)
  {
    assert Unworked(x, k) <==> Unworked(w, k);
  }

  /** The worker of the key advanced to a position, or an end, that fits the new view of the key. */
  lemma AdvanceOwn(e: Env, w: World, x: World, i: nat, next: Option<Pc>, k: Key)
    requires KeyInv(e, w, k) && OnKey(w, i, k)
    requires x.workers == Advance(w, i, next).workers
    requires next.Some? ==> Fits(e.policy, ViewOf(e, x, k), next.value)
    requires next == None ==> AtRest(e.policy, ViewOf(e, x, k))
    ensures KeyInv(e, x, k)
  {
    forall j | OnKey(x, j, k)
      ensures j == i && next.Some? && x.workers[j].pc == next.value
    {
      assert OnKey(w, j, k);
    }
    if next.Some? {
      assert OnKey(x, i, k);
    }
  }

  lemma AdvanceOther(e: Env, w: World, x: World, i: nat, next: Option<Pc>, k: Key)
    requires KeyInv(e, w, k) && i in w.workers && !OnKey(w, i, k)
    requires x.workers == Advance(w, i, next).workers
    requires ViewOf(e, x, k) == ViewOf(e, w, k)
    ensures KeyInv(e, x, k)
  {
    SameKey(e, w, x, k);
  }

  lemma RecordAfterRetry(tracker: map<BackupId, Status>, k: Key, count: nat, other: Key)
    ensures Record(WriteRetry(tracker, k, count), other) ==
              if other == k && Record(tracker, k).Some? then Some(Record(tracker, k).value.(retryCount := count))
              else Record(tracker, other)
  {
  }

  // ---------------------------------------------------------------- a worker's locked section

  /** The queue, the tracker, the store and the orphans are all a worker can change of a view. */
  lemma ViewFrame(e: Env, w: World, x: World, k: Key)
    requires x.attempts == w.attempts && x.clients == w.clients
    ensures ViewOf(e, x, k) == ViewOf(e, w, k).(queued := Count(x.queue, k), record := Record(x.tracker, k),
                                                orphaned := k in x.orphaned, good := GoodRemote(e, x, k))
    ensures x.remote == w.remote ==> GoodRemote(e, x, k) == GoodRemote(e, w, k)
  {
    assert Registering(e, x, k) == Registering(e, w, k);
  }

  lemma QueueEffect(e: Env, w: World, task: Task, pc: Pc, k: Key)
    ensures Count(WorkerEffect(e, w, task, pc).queue, k) ==
              Count(w.queue, k) + if pc.PushingRetry? && task.Key() == k then 1 else 0
  {
    CountAppends(w.queue, [task], k);
    assert Count([task], k) == if task.Key() == k then 1 else 0;
  }

  /** The effect on the worker's own record. */
  lemma OwnEffect(e: Env, w: World, task: Task, pc: Pc)
    requires Record(w.tracker, task.Key()).Some?
    ensures var r := Record(w.tracker, task.Key()).value;
            var effect := WorkerEffect(e, w, task, pc);
            Record(effect.tracker, task.Key()) == Some(
              match pc
              case Starting => Updated(r, InProgress, None)
              case Storing(bytes) => Updated(r, Completed, Some(bytes))
              case VerifyStarting => Updated(r, Verifying, None)
              case Concluding(s) => Updated(r, s, None)
              case WritingRetry(n) => r.(retryCount := n + 1)
              case GivingUp => Updated(r, Failed, None)
              case _ => r)
  {
  }

  /** Each locked section takes a fitting worker to a fitting position or to rest. */
  lemma SectionFits(e: Env, w: World, task: Task, pc: Pc, was: KeyView, now: KeyView)
    requires Fits(e.policy, was, pc) && was.record == Record(w.tracker, task.Key()) && Need(pc).Some?
    requires now == was.(queued := was.queued + if pc.PushingRetry? then 1 else 0,
                         record := Record(WorkerEffect(e, w, task, pc).tracker, task.Key()))
    ensures var next := WorkerEffect(e, w, task, pc).next;
            && (next.Some? ==> Fits(e.policy, now, next.value))
            && (next == None ==> AtRest(e.policy, now))
  {
    OwnEffect(e, w, task, pc);
  }

  lemma OtherRecordsKept(e: Env, w: World, task: Task, pc: Pc, k: Key)
    requires k != task.Key()
    ensures Record(WorkerEffect(e, w, task, pc).tracker, k) == Record(w.tracker, k)
  {
  }

  lemma WorkerKeepsOwn(e: Env, w: World, i: nat, k: Key)
    requires KeyInv(e, w, k) && OnKey(w, i, k) && Need(w.workers[i].pc).Some?
    ensures KeyInv(e, WorkerAct(e, w, i), k)
  {
    var task, pc := w.workers[i].task, w.workers[i].pc;
    var x := WorkerAct(e, w, i);
    ViewFrame(e, w, x, k);
    QueueEffect(e, w, task, pc, k);
    SectionFits(e, w, task, pc, ViewOf(e, w, k), ViewOf(e, x, k));
    AdvanceOwn(e, w, x, i, WorkerEffect(e, w, task, pc).next, k);
  }

  lemma WorkerKeepsOther(e: Env, w: World, i: nat, k: Key)
    requires KeyInv(e, w, k) && i in w.workers && !OnKey(w, i, k)
    ensures KeyInv(e, WorkerAct(e, w, i), k)
  {
    var task, pc := w.workers[i].task, w.workers[i].pc;
    var x := WorkerAct(e, w, i);
    ViewFrame(e, w, x, k);
    QueueEffect(e, w, task, pc, k);
    OtherRecordsKept(e, w, task, pc, k);
    AdvanceOther(e, w, x, i, WorkerEffect(e, w, task, pc).next, k);
  }

  // ---------------------------------------------------------------- a worker between its locked sections

  lemma TransferKeepsKey(e: Env, w: World, i: nat, t: Transfer, k: Key)
    requires KeyInv(e, w, k) && Enabled(e, w, Transfers(i, t))
    ensures KeyInv(e, TransferAct(e, w, i, t), k)
  {
    if OnKey(w, i, k) {
      TransferFits(e, w, i, t, k);
      TransferWorkers(e, w, i, t);
      AdvanceOwn(e, w, TransferAct(e, w, i, t), i, Some(AfterTransfer(e, w, i, t)), k);
    } else {
      TransferKeepsOther(e, w, i, t, k);
    }
  }

  function AfterTransfer(e: Env, w: World, i: nat, t: Transfer): Pc
    requires i in w.workers && (t.Stored? ==> w.workers[i].task.backupId in e.primary)
  {
    if t.Stored? then Storing(|e.primary[w.workers[i].task.backupId].data|) else ReadingRetry
  }

  lemma TransferWorkers(e: Env, w: World, i: nat, t: Transfer)
    requires i in w.workers && (t.Stored? ==> w.workers[i].task.backupId in e.primary)
    ensures var x := TransferAct(e, w, i, t);
            && x.workers == Advance(w, i, Some(AfterTransfer(e, w, i, t))).workers
            && x.workers[i].pc == AfterTransfer(e, w, i, t)
  {
  }

  lemma TransferKeepsOther(e: Env, w: World, i: nat, t: Transfer, k: Key)
    requires KeyInv(e, w, k) && Enabled(e, w, Transfers(i, t)) && !OnKey(w, i, k)
    ensures KeyInv(e, TransferAct(e, w, i, t), k)
  {
    var x := TransferAct(e, w, i, t);
    ViewFrame(e, w, x, k);
    assert GoodRemote(e, x, k) == GoodRemote(e, w, k);
    TransferWorkers(e, w, i, t);
    AdvanceOther(e, w, x, i, Some(AfterTransfer(e, w, i, t)), k);
  }

  lemma TransferFits(e: Env, w: World, i: nat, t: Transfer, k: Key)
    requires Enabled(e, w, Transfers(i, t)) && OnKey(w, i, k) && Fits(e.policy, ViewOf(e, w, k), Transferring)
    ensures var x := TransferAct(e, w, i, t); Fits(e.policy, ViewOf(e, x, k), x.workers[i].pc)
  {
    ViewFrame(e, w, TransferAct(e, w, i, t), k);
  }

  lemma CheckFits(e: Env, w: World, i: nat, check: Check, k: Key)
    requires Enabled(e, w, Checks(i, check)) && OnKey(w, i, k) && Fits(e.policy, ViewOf(e, w, k), Checking)
    ensures var x := CheckAct(e, w, i, check);
            if check == NoStorage then AtRest(e.policy, ViewOf(e, x, k)) else Fits(e.policy, ViewOf(e, x, k), x.workers[i].pc)
  {
    ViewFrame(e, w, CheckAct(e, w, i, check), k);
  }

  lemma CheckKeepsKey(e: Env, w: World, i: nat, check: Check, k: Key)
    requires KeyInv(e, w, k) && Enabled(e, w, Checks(i, check))
    ensures KeyInv(e, CheckAct(e, w, i, check), k)
  {
    var x := CheckAct(e, w, i, check);
    if OnKey(w, i, k) {
      CheckFits(e, w, i, check, k);
      AdvanceOwn(e, w, x, i, if check == NoStorage then None else Some(x.workers[i].pc), k);
    } else {
      CheckKeepsOther(e, w, i, check, k);
    }
  }

  lemma CheckKeepsOther(e: Env, w: World, i: nat, check: Check, k: Key)
    requires KeyInv(e, w, k) && Enabled(e, w, Checks(i, check)) && !OnKey(w, i, k)
    ensures KeyInv(e, CheckAct(e, w, i, check), k)
  {
    var x := CheckAct(e, w, i, check);
    ViewFrame(e, w, x, k);
    AdvanceOther(e, w, x, i, if check == NoStorage then None else Some(x.workers[i].pc), k);
  }

  // ---------------------------------------------------------------- clients

  lemma {:induction false} TaskCount(regions: seq<Region>, primary: Region, id: BackupId, metadata: Metadata, priority: Priority, k: Key)
    requires forall i, j :: 0 <= i < j < |regions| ==> regions[i] != regions[j]
    ensures Count(TasksFor(regions, primary, id, metadata, priority), k) ==
              if k.0 == id && k.1 in regions && k.1 != primary then 1 else 0
  {
    if regions != [] {
      var front, region := regions[..|regions| - 1], regions[|regions| - 1];
      TaskCount(front, primary, id, metadata, priority, k);
      assert regions == front + [region];
      if region != primary {
        var task := Task(id, primary, region, metadata, priority);
        CountAppends(TasksFor(front, primary, id, metadata, priority), [task], k);
        assert Count([task], k) == if task.Key() == k then 1 else 0;
      } else {
        assert TasksFor(regions, primary, id, metadata, priority) == TasksFor(front, primary, id, metadata, priority);
      }
    }
  }

  ghost predicate DistinctTargets(e: Env) {
    forall i, j :: 0 <= i < j < |e.policy.targetRegions| ==> e.policy.targetRegions[i] != e.policy.targetRegions[j]
  }

  /** Whoever holds the queue is the only client past its door. */
  lemma SoleClient(w: World, c: nat, d: nat)
    requires Excluded(w) && c in w.clients && d in w.clients && c != d && w.clients[c].pc != WantQueue
    ensures w.clients[d].pc == WantQueue
  {
    assert Holds(w, TheClient(c), Queue) && Conflict(Queue, Queue);
    assert w.clients[d].pc != WantQueue ==> Holds(w, TheClient(d), Queue);
  }

  lemma RegisteringNow(e: Env, w: World, c: nat, k: Key)
    requires Excluded(w) && c in w.clients && w.clients[c].pc != WantQueue
    ensures Registering(e, w, k) <==> k.0 == w.clients[c].id && IsTarget(e, k.1) && w.clients[c].pc != InQueue
  {
    forall d | d in w.clients && d != c
      ensures w.clients[d].pc == WantQueue
    {
      SoleClient(w, c, d);
    }
  }

  lemma NobodyRegisters(e: Env, w: World, k: Key)
    requires forall c :: c in w.clients ==> w.clients[c].pc in {WantQueue, InQueue}
    ensures !Registering(e, w, k)
  {
  }

  /** A key without workers and records becomes one that is registering or registered. */
  lemma NewKey(e: Env, w: World, x: World, k: Key)
    requires KeyInv(e, w, k) && x.workers == w.workers && Record(w.tracker, k) == None
    requires if Record(x.tracker, k) == None then Unregistered(ViewOf(e, x, k)) else AtRest(e.policy, ViewOf(e, x, k))
    ensures KeyInv(e, x, k)
  {
    assert forall i :: OnKey(x, i, k) <==> OnKey(w, i, k);
  }

  lemma CountAfterEnqueue(e: Env, w: World, c: nat, k: Key)
    requires DistinctTargets(e) && c in w.clients && w.clients[c].pc == InQueue
    ensures Count(ClientAct(e, w, c).queue, k) ==
              Count(w.queue, k) + if k.0 == w.clients[c].id && IsTarget(e, k.1) then 1 else 0
  {
    var client := w.clients[c];
    var tasks := TasksFor(e.policy.targetRegions, e.primaryRegion, client.id, client.metadata, client.priority);
    SortKeepsCount(w.queue + tasks, k);
    CountAppends(w.queue, tasks, k);
    TaskCount(e.policy.targetRegions, e.primaryRegion, client.id, client.metadata, client.priority, k);
  }

  lemma ClientQueues(e: Env, w: World, c: nat, k: Key)
    requires c in w.clients && w.clients[c].pc == InQueue && w.clients[c].id !in w.tracker
    requires DistinctTargets(e) && KeyInv(e, w, k) && Excluded(w) && Excluded(ClientAct(e, w, c))
    ensures KeyInv(e, ClientAct(e, w, c), k)
  {
    var x := ClientAct(e, w, c);
    RegisteringNow(e, w, c, k);
    RegisteringNow(e, x, c, k);
    CountAfterEnqueue(e, w, c, k);
    if k.0 == w.clients[c].id {
      assert Record(w.tracker, k) == None;
      NewKey(e, w, x, k);
    } else {
      SameKey(e, w, x, k);
    }
  }

  lemma RegistersNobodyElse(e: Env, w: World, c: nat, k: Key)
    requires Excluded(w) && c in w.clients && w.clients[c].pc == InTracker
    ensures !Registering(e, ClientAct(e, w, c), k)
  {
    var x := ClientAct(e, w, c);
    forall d | d in x.clients
      ensures x.clients[d].pc == WantQueue
    {
      SoleClient(w, c, d);
    }
    NobodyRegisters(e, x, k);
  }

  lemma ClientRegisters(e: Env, w: World, c: nat, k: Key)
    requires KeyInv(e, w, k) && ClientsFit(w) && Excluded(w)
    requires c in w.clients && w.clients[c].pc == InTracker
    ensures KeyInv(e, ClientAct(e, w, c), k)
  {
    var x := ClientAct(e, w, c);
    RegisteringNow(e, w, c, k);
    RegistersNobodyElse(e, w, c, k);
    if k.0 == w.clients[c].id {
      assert Record(w.tracker, k) == None;
      assert Record(x.tracker, k) == if IsTarget(e, k.1) then Some(Regional(Pending, 0, 0)) else None;
      NewKey(e, w, x, k);
    } else {
      SameKey(e, w, x, k);
    }
  }

  // ---------------------------------------------------------------- the dispatcher

  /** The dispatcher in the queue lock sees only tasks whose record is stored. */
  lemma DrainedIsStored(e: Env, w: World, k: Key)
    requires KeyInv(e, w, k) && Excluded(w) && w.dispatcher == Draining
    ensures !Registering(e, w, k)
    ensures Count(w.queue, k) > 0 ==> Record(w.tracker, k).Some?
  {
    forall c | c in w.clients
      ensures w.clients[c].pc == WantQueue
    {
      assert Holds(w, TheDispatcher, Queue) && Conflict(Queue, Queue);
      assert w.clients[c].pc != WantQueue ==> Holds(w, TheClient(c), Queue);
    }
    NobodyRegisters(e, w, k);
  }

  lemma {:induction false} AttemptsAfter(attempts: map<Key, nat>, batch: seq<Task>, k: Key)
    ensures var now := BumpAll(attempts, batch);
            (if k in now then now[k] else 0) == (if k in attempts then attempts[k] else 0) + Count(batch, k)
  {
    if batch != [] {
      AttemptsAfter(attempts, batch[..|batch| - 1], k);
    }
  }

  lemma {:induction false} CountIsZero(q: seq<Task>, k: Key)
    ensures Count(q, k) == 0 <==> forall i :: 0 <= i < |q| ==> q[i].Key() != k
  {
    if q != [] {
      CountIsZero(q[..|q| - 1], k);
      assert forall i :: 0 <= i < |q| - 1 ==> q[..|q| - 1][i] == q[i];
    }
  }

  lemma {:induction false} CountIsOne(q: seq<Task>, k: Key, i: nat, j: nat)
    requires Count(q, k) <= 1 && i < |q| && j < |q| && q[i].Key() == k && q[j].Key() == k
    ensures i == j
  {
    var front := q[..|q| - 1];
    assert forall a :: 0 <= a < |front| ==> front[a] == q[a];
    if q[|q| - 1].Key() == k {
      CountIsZero(front, k);
      assert forall a :: 0 <= a < |front| ==> q[a].Key() != k;
    } else {
      CountIsOne(front, k, i, j);
    }
  }

  /** The new workers are the drained tasks. */
  lemma DrainKeepsWorkers(e: Env, w: World, k: Key)
    requires w.workers == map[] && BatchSize(e.policy, w.queue) > 0 && Count(w.queue, k) <= 1
    ensures var x, batch := DrainAct(e, w), w.queue[..BatchSize(e.policy, w.queue)];
            && (forall i: nat :: OnKey(x, i, k) <==> i < |batch| && batch[i].Key() == k)
            && (forall i :: OnKey(x, i, k) ==> x.workers[i].pc == Starting)
            && (forall i, j :: OnKey(x, i, k) && OnKey(x, j, k) ==> i == j)
            && (Unworked(x, k) <==> Count(batch, k) == 0)
            && Count(w.queue, k) == Count(batch, k) + Count(x.queue, k)
  {
    var n := BatchSize(e.policy, w.queue);
    var x, batch := DrainAct(e, w), w.queue[..n];
    assert w.queue == batch + w.queue[n..];
    CountAppends(batch, w.queue[n..], k);
    forall i, j | OnKey(x, i, k) && OnKey(x, j, k)
      ensures i == j
    {
      CountIsOne(batch, k, i, j);
    }
    CountIsZero(batch, k);
    if Count(batch, k) != 0 {
      var i :| 0 <= i < |batch| && batch[i].Key() == k;
      assert OnKey(x, i, k);
    }
  }

  lemma DrainView(e: Env, w: World, k: Key)
    requires BatchSize(e.policy, w.queue) > 0
    ensures var x, batch := DrainAct(e, w), w.queue[..BatchSize(e.policy, w.queue)];
            ViewOf(e, x, k) == ViewOf(e, w, k).(queued := Count(x.queue, k), attempts := Attempts(w, k) + Count(batch, k))
  {
    AttemptsAfter(w.attempts, w.queue[..BatchSize(e.policy, w.queue)], k);
    var x := DrainAct(e, w);
    assert Registering(e, x, k) == Registering(e, w, k);
    assert GoodRemote(e, x, k) == GoodRemote(e, w, k);
  }

  lemma DrainKeepsKey(e: Env, w: World, k: Key)
    requires KeyInv(e, w, k) && Excluded(w) && w.dispatcher == Draining && w.workers == map[]
    ensures KeyInv(e, DrainAct(e, w), k)
  {
    assert Unworked(w, k);
    if BatchSize(e.policy, w.queue) == 0 {
      EmptyDrain(e, w, k);
    } else {
      DrainedIsStored(e, w, k);
      DrainKeepsWorkers(e, w, k);
      DrainView(e, w, k);
      Dispatched(e.policy, ViewOf(e, w, k), ViewOf(e, DrainAct(e, w), k));
    }
  }

  lemma EmptyDrain(e: Env, w: World, k: Key)
    requires KeyInv(e, w, k) && BatchSize(e.policy, w.queue) == 0
    ensures KeyInv(e, DrainAct(e, w), k)
  {
    ViewFrame(e, w, DrainAct(e, w), k);
    SameKey(e, w, DrainAct(e, w), k);
  }

  /** A key at rest either stays as it was or has its queued task taken for an attempt. */
  lemma Dispatched(p: Policy, was: KeyView, now: KeyView)
    requires AtRest(p, was) || (Unregistered(was) && !was.registering && was.record == None)
    requires now.queued <= was.queued && now == was.(queued := now.queued, attempts := was.attempts + (was.queued - now.queued))
    ensures was.record.Some? && now.queued == was.queued ==> AtRest(p, now)
    ensures now.queued < was.queued ==> Fits(p, now, Starting)
    ensures was.record == None ==> now == was
  {
  }

  // ---------------------------------------------------------------- every step, every run

  lemma EnterKeepsKey(e: Env, w: World, t: Thread, k: Key)
    requires KeyInv(e, w, k) && Wants(w, t).Some?
    ensures KeyInv(e, Enter(w, t), k)
  {
    EnterKeepsView(e, w, t, k);
    EnterKeepsWorkers(w, t);
    SameKey(e, w, Enter(w, t), k);
  }

  lemma EnterKeepsWorkers(w: World, t: Thread)
    ensures var x := Enter(w, t);
            && x.workers.Keys == w.workers.Keys
            && forall i :: i in w.workers ==> x.workers[i].task == w.workers[i].task && x.workers[i].pc == w.workers[i].pc
  {
  }

  lemma EnterKeepsView(e: Env, w: World, t: Thread, k: Key)
    requires Wants(w, t).Some?
    ensures ViewOf(e, Enter(w, t), k) == ViewOf(e, w, k)
  {
    var x := Enter(w, t);
    assert Registering(e, x, k) <==> Registering(e, w, k) by {
      if c :| c in w.clients && w.clients[c].id == k.0 && w.clients[c].pc in {WantTracker, InTracker} {
        assert x.clients[c].id == k.0 && x.clients[c].pc in {WantTracker, InTracker};
      }
      if c :| c in x.clients && x.clients[c].id == k.0 && x.clients[c].pc in {WantTracker, InTracker} {
        assert w.clients[c].id == k.0 && w.clients[c].pc in {WantTracker, InTracker};
      }
    }
    assert GoodRemote(e, x, k) == GoodRemote(e, w, k);
  }

  lemma SubmitKeepsKey(e: Env, w: World, c: nat, client: Client, k: Key)
    requires KeyInv(e, w, k) && c !in w.clients && client.pc == WantQueue
    ensures KeyInv(e, w.(clients := w.clients[c := client]), k)
  {
    var x := w.(clients := w.clients[c := client]);
    assert Registering(e, x, k) <==> Registering(e, w, k) by {
      if d :| d in w.clients && w.clients[d].id == k.0 && w.clients[d].pc in {WantTracker, InTracker} {
        assert x.clients[d].id == k.0 && x.clients[d].pc in {WantTracker, InTracker};
      }
    }
    assert GoodRemote(e, x, k) == GoodRemote(e, w, k);
    SameKey(e, w, x, k);
  }

  lemma QuietKeepsKey(e: Env, w: World, x: World, k: Key)
    requires KeyInv(e, w, k) && x == w.(dispatcher := x.dispatcher, observers := x.observers)
    ensures KeyInv(e, x, k)
  {
    ViewFrame(e, w, x, k);
    SameKey(e, w, x, k);
  }

  lemma NextKeepsKey(e: Env, w: World, ev: Event, k: Key)
    requires DistinctTargets(e) && Inv(e, w) && Enabled(e, w, ev)
    ensures KeyInv(e, Next(e, w, ev), k)
  {
    assert KeyInv(e, w, k);
    ExclusionKept(e, w, ev);
    match ev
    case Submit(c, id, metadata, priority) => SubmitKeepsKey(e, w, c, Client(id, metadata, priority, WantQueue), k);
    case Acquire(t) => EnterKeepsKey(e, w, t, k);
    case ClientActs(c) =>
      if w.clients[c].pc == InQueue { ClientQueues(e, w, c, k); } else { ClientRegisters(e, w, c, k); }
    case Drain => DrainKeepsKey(e, w, k);
    case WorkerActs(i) =>
      if OnKey(w, i, k) { WorkerKeepsOwn(e, w, i, k); } else { WorkerKeepsOther(e, w, i, k); }
    case Transfers(i, transfer) => TransferKeepsKey(e, w, i, transfer, k);
    case Checks(i, check) => CheckKeepsKey(e, w, i, check, k);
    case _ => QuietKeepsKey(e, w, Next(e, w, ev), k);
  }

  lemma TrackedIdsKept(e: Env, w: World, i: nat)
    requires i in w.workers
    ensures WorkerAct(e, w, i).tracker.Keys == w.tracker.Keys
  {
  }

  lemma EnterKeepsClients(w: World, t: Thread)
    requires ClientsFit(w) && Wants(w, t).Some?
    ensures ClientsFit(Enter(w, t))
  {
  }

  lemma ClientActKeepsClients(e: Env, w: World, c: nat)
    requires ClientsFit(w) && Excluded(w) && c in w.clients && w.clients[c].pc in {InQueue, InTracker}
    requires w.clients[c].pc == InQueue ==> w.clients[c].id !in w.tracker
    ensures ClientsFit(ClientAct(e, w, c))
  {
    forall d | d in w.clients && d != c
      ensures w.clients[d].pc == WantQueue
    {
      SoleClient(w, c, d);
    }
  }

  lemma SubmitKeepsClients(w: World, c: nat, client: Client)
    requires ClientsFit(w) && client.pc == WantQueue
    ensures ClientsFit(w.(clients := w.clients[c := client]))
  {
  }

  lemma SameClients(w: World, x: World)
    requires ClientsFit(w) && x.clients == w.clients && x.tracker.Keys == w.tracker.Keys
    ensures ClientsFit(x)
  {
  }

  /** The event leaves the parts of the shared state alone that its kind has no business with. */
  ghost predicate LeavesAlone(w: World, ev: Event, x: World) {
    && (!ev.Submit? && !ev.Acquire? && !ev.ClientActs? ==> x.clients == w.clients)
    && (!ev.WorkerActs? && !ev.ClientActs? ==> x.tracker == w.tracker)
    && (!ev.Checks? ==> x.orphaned == w.orphaned)
    && (!ev.Drain? && !ev.WorkerActs? && !ev.ClientActs? ==> x.queue == w.queue && x.retries == w.retries)
    && (!ev.Drain? ==> x.attempts == w.attempts && x.drained == w.drained && x.batches == w.batches)
  }

  lemma UntouchedByWorker(e: Env, w: World, i: nat)
    requires i in w.workers
    ensures LeavesAlone(w, WorkerActs(i), WorkerAct(e, w, i))
  {
  }

  lemma UntouchedByTransfer(e: Env, w: World, i: nat, t: Transfer)
    requires i in w.workers && (t.Stored? ==> w.workers[i].task.backupId in e.primary)
    ensures LeavesAlone(w, Transfers(i, t), TransferAct(e, w, i, t))
  {
  }

  lemma UntouchedByCheck(e: Env, w: World, i: nat, check: Check)
    requires i in w.workers
    ensures LeavesAlone(w, Checks(i, check), CheckAct(e, w, i, check))
  {
  }

  lemma UntouchedByClients(e: Env, w: World, ev: Event)
    requires Named(e, w, ev) && (ev.Submit? || ev.ClientActs?)
    ensures LeavesAlone(w, ev, Next(e, w, ev))
  {
  }

  lemma UntouchedByOthers(e: Env, w: World, ev: Event)
    requires Named(e, w, ev) && (ev.Tick? || ev.Drain? || ev.BatchDone? || ev.Observe? || ev.ObserverDone?)
    ensures LeavesAlone(w, ev, Next(e, w, ev))
  {
  }

  lemma UntouchedByEntering(e: Env, w: World, t: Thread)
    ensures LeavesAlone(w, Acquire(t), Next(e, w, Acquire(t)))
  {
  }

  lemma Untouched(e: Env, w: World, ev: Event)
    requires Named(e, w, ev)
    ensures LeavesAlone(w, ev, Next(e, w, ev))
  {
    match ev
    case WorkerActs(i) => UntouchedByWorker(e, w, i);
    case Transfers(i, t) => UntouchedByTransfer(e, w, i, t);
    case Checks(i, check) => UntouchedByCheck(e, w, i, check);
    case Submit(_, _, _, _) => UntouchedByClients(e, w, ev);
    case ClientActs(_) => UntouchedByClients(e, w, ev);
    case Acquire(t) => UntouchedByEntering(e, w, t);
    case _ => UntouchedByOthers(e, w, ev);
  }

  lemma NextKeepsClients(e: Env, w: World, ev: Event)
    requires ClientsFit(w) && Excluded(w) && Enabled(e, w, ev)
    ensures ClientsFit(Next(e, w, ev))
  {
    Untouched(e, w, ev);
    match ev
    case Submit(c, id, metadata, priority) => SubmitKeepsClients(w, c, Client(id, metadata, priority, WantQueue));
    case Acquire(t) => EnterKeepsClients(w, t);
    case ClientActs(c) => ClientActKeepsClients(e, w, c);
    case WorkerActs(i) => TrackedIdsKept(e, w, i); SameClients(w, Next(e, w, ev));
    case _ => SameClients(w, Next(e, w, ev));
  }

  lemma NextKeepsBarrier(e: Env, w: World, ev: Event)
    requires (w.dispatcher != Barrier ==> w.workers == map[]) && Enabled(e, w, ev)
    ensures var x := Next(e, w, ev); x.dispatcher != Barrier ==> x.workers == map[]
  {
    match ev
    case WorkerActs(i) =>
    case _ =>
  }

  lemma NextKeepsInv(e: Env, w: World, ev: Event)
    requires DistinctTargets(e) && Inv(e, w) && Enabled(e, w, ev)
    ensures Inv(e, Next(e, w, ev))
  {
    forall k: Key
      ensures KeyInv(e, Next(e, w, ev), k)
    {
      NextKeepsKey(e, w, ev, k);
    }
    NextKeepsClients(e, w, ev);
    NextKeepsBarrier(e, w, ev);
    ExclusionKept(e, w, ev);
  }

  lemma {:induction false} RunKeepsInv(e: Env, w: World, events: seq<Event>)
    requires DistinctTargets(e) && Inv(e, w) && EnabledRun(e, w, events)
    ensures Inv(e, After(e, w, events))
    decreases |events|
  {
    if events != [] {
      NextKeepsInv(e, w, events[0]);
      RunKeepsInv(e, Next(e, w, events[0]), events[1..]);
    }
  }

  lemma StartInv(e: Env)
    ensures Inv(e, Start())
  {
  }
}
