/** The replicator as a concurrent protocol (`backup_replication.rs`): clients queueing backups, one
    dispatcher taking batches behind a barrier, the batch's workers, and observers, interleaved at the
    granularity of their lock acquisitions. */
module ReplicationProtocol {
  import opened Outcomes
  import opened Replication

  // ---------------------------------------------------------------- threads and locks

  /** Where a worker stands in `replicate_single_backup`. */
  datatype Pc =
    | Starting
    | Transferring
    | Storing(bytes: nat)
    | VerifyStarting
    | Checking
    | Concluding(result: State)
    | ReadingRetry
    | PushingRetry(count: nat)
    | WritingRetry(count: nat)
    | GivingUp

  /** `inside`: the worker has the lock its position needs. */
  datatype Worker = Worker(task: Task, pc: Pc, inside: bool)

  /** A client in `replicate_backup` keeps the queue lock until the status record is stored. */
  datatype ClientPc = WantQueue | InQueue | WantTracker | InTracker

  datatype Client = Client(id: BackupId, metadata: Metadata, priority: Priority, pc: ClientPc)

  datatype Dispatcher = Idle | Waiting | Draining | Barrier

  /** The shared state, the threads, the remote stores, and four history variables: attempts per key, the keys
      whose verification lost its storage, the retries appended since the last enqueue and still queued, tasks and batches drained. */
  datatype World = World(
    queue: seq<Task>, tracker: map<BackupId, Status>,
    workers: map<nat, Worker>, clients: map<nat, Client>, observers: map<nat, bool>, dispatcher: Dispatcher,
    remote: map<Key, Copy>,
    attempts: map<Key, nat>, orphaned: set<Key>, retries: seq<Task>, drained: nat, batches: nat)

  /** What never changes: policy, primary region, the primary store, and the hash. */
  datatype Env = Env(policy: Policy, primaryRegion: Region, primary: map<BackupId, Copy>, hash: Bytes -> string)

  datatype Thread = TheDispatcher | TheWorker(i: nat) | TheClient(c: nat) | TheObserver(o: nat)

  datatype Lock = Queue | Shared | Exclusive

  function Need(pc: Pc): Option<Lock> {
    match pc
    case Transferring => None
    case Checking => None
    case ReadingRetry => Some(Shared)
    case PushingRetry(_) => Some(Queue)
    case _ => Some(Exclusive)
  }

  predicate Holds(w: World, t: Thread, l: Lock) {
    match t
    case TheDispatcher => w.dispatcher == Draining && l == Queue
    case TheWorker(i) => i in w.workers && w.workers[i].inside && Need(w.workers[i].pc) == Some(l)
    case TheClient(c) =>
      c in w.clients && ((l == Queue && w.clients[c].pc != WantQueue) || (l == Exclusive && w.clients[c].pc == InTracker))
    case TheObserver(o) => o in w.observers && w.observers[o] && l == Shared
  }

  function Wants(w: World, t: Thread): Option<Lock> {
    match t
    case TheDispatcher => if w.dispatcher == Waiting then Some(Queue) else None
    case TheWorker(i) => if i in w.workers && !w.workers[i].inside then Need(w.workers[i].pc) else None
    case TheClient(c) =>
      if c !in w.clients then None
      else if w.clients[c].pc == WantQueue then Some(Queue)
      else if w.clients[c].pc == WantTracker then Some(Exclusive)
      else None
    case TheObserver(o) => if o in w.observers && !w.observers[o] then Some(Shared) else None
  }

  predicate Conflict(wanted: Lock, held: Lock) {
    match wanted
    case Queue => held == Queue
    case Shared => held == Exclusive
    case Exclusive => held != Queue
  }

  ghost predicate Free(w: World, l: Lock) {
    forall u, held :: Holds(w, u, held) ==> !Conflict(l, held)
  }

  ghost predicate WaitsFor(w: World, t: Thread, u: Thread) {
    Wants(w, t).Some? && exists held :: Holds(w, u, held) && Conflict(Wants(w, t).value, held)
  }

  // ---------------------------------------------------------------- events

  /** How the transfer of a task may end: a copy is stored, possibly not the one sent, or the attempt fails
      and leaves something or nothing behind. */
  datatype Transfer = Stored(copy: Copy) | Broken(left: Option<Copy>)

  datatype Check = NoStorage | ReadFailed | Read

  datatype Event =
    | Submit(c: nat, id: BackupId, metadata: Metadata, priority: Priority)
    | Acquire(t: Thread)
    | ClientActs(c: nat)
    | Tick
    | Drain
    | BatchDone
    | WorkerActs(i: nat)
    | Transfers(i: nat, transfer: Transfer)
    | Checks(i: nat, check: Check)
    | Observe(o: nat)
    | ObserverDone(o: nat)

  predicate IsTarget(e: Env, region: Region) {
    region in e.policy.targetRegions && region != e.primaryRegion
  }

  ghost predicate Possible(e: Env, w: World, ev: Event) {
    match ev
    case Submit(c, _, _, _) => c !in w.clients
    case Acquire(t) => Wants(w, t).Some? && Free(w, Wants(w, t).value)
    case ClientActs(c) => c in w.clients && w.clients[c].pc in {InQueue, InTracker}
    case Tick => w.dispatcher == Idle
    case Drain => w.dispatcher == Draining
    case BatchDone => w.dispatcher == Barrier && w.workers == map[]
    case WorkerActs(i) => i in w.workers && w.workers[i].inside && Need(w.workers[i].pc).Some?
    case Transfers(i, transfer) =>
      i in w.workers && w.workers[i].pc == Transferring && (transfer.Stored? ==> w.workers[i].task.backupId in e.primary)
    case Checks(i, check) =>
      i in w.workers && w.workers[i].pc == Checking && (check.Read? ==> w.workers[i].task.Key() in w.remote)
    case Observe(o) => o !in w.observers
    case ObserverDone(o) => o in w.observers && w.observers[o]
  }

  /** No client queues tasks for a backup that already has a record. */
  predicate Fresh(w: World, ev: Event) {
    ev.ClientActs? && ev.c in w.clients && w.clients[ev.c].pc == InQueue ==> w.clients[ev.c].id !in w.tracker
  }

  ghost predicate Enabled(e: Env, w: World, ev: Event) {
    Possible(e, w, ev) && Fresh(w, ev)
  }

  function Enter(w: World, t: Thread): World {
    match t
    case TheDispatcher => w.(dispatcher := Draining)
    case TheWorker(i) => if i in w.workers then w.(workers := w.workers[i := w.workers[i].(inside := true)]) else w
    case TheClient(c) =>
      if c in w.clients then
        w.(clients := w.clients[c := w.clients[c].(pc := if w.clients[c].pc == WantQueue then InQueue else InTracker)])
      else w
    case TheObserver(o) => w.(observers := w.observers[o := true])
  }

  function ClientAct(e: Env, w: World, c: nat): World
    requires c in w.clients
  {
    var client := w.clients[c];
    if client.pc == InQueue then
      w.(queue := Sorted(w.queue + TasksFor(e.policy.targetRegions, e.primaryRegion, client.id, client.metadata, client.priority)),
         clients := w.clients[c := client.(pc := WantTracker)],
         retries := [])
    else
      w.(tracker := w.tracker[client.id := InitialStatus(e.policy.targetRegions, e.primaryRegion)],
         clients := w.clients - {c})
  }

  function Bump(attempts: map<Key, nat>, k: Key): map<Key, nat> {
    attempts[k := if k in attempts then attempts[k] + 1 else 1]
  }

  function BumpAll(attempts: map<Key, nat>, batch: seq<Task>): map<Key, nat> {
    if batch == [] then attempts else Bump(BumpAll(attempts, batch[..|batch| - 1]), batch[|batch| - 1].Key())
  }

  function DrainAct(e: Env, w: World): World {
    var n := BatchSize(e.policy, w.queue);
    if n == 0 then w.(dispatcher := Idle)
    else
      var batch := w.queue[..n];
      w.(queue := w.queue[n..],
         dispatcher := Barrier,
         workers := map i: nat | i < n :: Worker(batch[i], Starting, false),
         attempts := BumpAll(w.attempts, batch),
         retries := if |w.retries| <= |w.queue| - n then w.retries else w.retries[|w.retries| - (|w.queue| - n)..],
         drained := w.drained + n,
         batches := w.batches + 1)
  }

  /** The worker leaves its lock for its next position, or ends. */
  function Advance(w: World, i: nat, next: Option<Pc>): World
    requires i in w.workers
  {
    w.(workers := if next == None then w.workers - {i} else w.workers[i := Worker(w.workers[i].task, next.value, false)])
  }

  /** What a locked section of a worker does to the queue and the tracker, and where the worker goes. */
  datatype Effect = Effect(queue: seq<Task>, tracker: map<BackupId, Status>, pushed: seq<Task>, next: Option<Pc>)

  function Writes(w: World, k: Key, state: State, bytes: Option<nat>, next: Option<Pc>): Effect {
    Effect(w.queue, UpdateStatus(w.tracker, k, state, bytes), [], next)
  }

  /** The locked sections of `replicate_single_backup`, `verify_replication` and `handle_replication_failure`. */
  function WorkerEffect(e: Env, w: World, task: Task, pc: Pc): Effect {
    var k := task.Key();
    match pc
    case Starting => Writes(w, k, InProgress, None, Some(Transferring))
    case Storing(bytes) => Writes(w, k, Completed, Some(bytes), if e.policy.verify then Some(VerifyStarting) else None)
    case VerifyStarting => Writes(w, k, Verifying, None, Some(Checking))
    case Concluding(result) => Writes(w, k, result, None, None)
    case ReadingRetry =>
      var count := RetryCount(w.tracker, k);
      Effect(w.queue, w.tracker, [], Some(if count < e.policy.maxRetries then PushingRetry(count) else GivingUp))
    case PushingRetry(count) => Effect(w.queue + [task], w.tracker, [task], Some(WritingRetry(count)))
    case WritingRetry(count) => Effect(w.queue, WriteRetry(w.tracker, k, count + 1), [], None)
    case GivingUp => Writes(w, k, Failed, None, None)
    case _ => Effect(w.queue, w.tracker, [], Some(pc))
  }

  function WorkerAct(e: Env, w: World, i: nat): World
    requires i in w.workers
  {
    var effect := WorkerEffect(e, w, w.workers[i].task, w.workers[i].pc);
    Advance(w.(queue := effect.queue, tracker := effect.tracker, retries := w.retries + effect.pushed), i, effect.next)
  }

  function TransferAct(e: Env, w: World, i: nat, t: Transfer): World
    requires i in w.workers
    requires t.Stored? ==> w.workers[i].task.backupId in e.primary
  {
    var k := w.workers[i].task.Key();
    match t
    case Stored(copy) => Advance(w.(remote := w.remote[k := copy]), i, Some(Storing(|e.primary[k.0].data|)))
    case Broken(left) =>
      Advance(w.(remote := if left.Some? then w.remote[k := left.value] else w.remote - {k}), i, Some(ReadingRetry))
  }

  ghost predicate GoodRemote(e: Env, w: World, k: Key) {
    k in w.remote && k.0 in e.primary && PassesVerification(w.remote[k], e.primary[k.0].metadata, e.hash)
  }

  ghost function CheckAct(e: Env, w: World, i: nat, check: Check): World
    requires i in w.workers
  {
    var k := w.workers[i].task.Key();
    match check
    case NoStorage => Advance(w.(orphaned := w.orphaned + {k}), i, None)
    case ReadFailed => Advance(w, i, Some(Concluding(Failed)))
    case Read => Advance(w, i, Some(Concluding(if GoodRemote(e, w, k) then Verified else Failed)))
  }

  /** The threads an event speaks of exist: all that its effect needs. */
  predicate Named(e: Env, w: World, ev: Event) {
    match ev
    case ClientActs(c) => c in w.clients
    case WorkerActs(i) => i in w.workers
    case Transfers(i, transfer) => i in w.workers && (transfer.Stored? ==> w.workers[i].task.backupId in e.primary)
    case Checks(i, _) => i in w.workers
    case _ => true
  }

  ghost function Next(e: Env, w: World, ev: Event): World
    requires Named(e, w, ev)
  {
    match ev
    case Submit(c, id, metadata, priority) => w.(clients := w.clients[c := Client(id, metadata, priority, WantQueue)])
    case Acquire(t) => Enter(w, t)
    case ClientActs(c) => ClientAct(e, w, c)
    case Tick => w.(dispatcher := Waiting)
    case Drain => DrainAct(e, w)
    case BatchDone => w.(dispatcher := Idle)
    case WorkerActs(i) => WorkerAct(e, w, i)
    case Transfers(i, transfer) => TransferAct(e, w, i, transfer)
    case Checks(i, check) => CheckAct(e, w, i, check)
    case Observe(o) => w.(observers := w.observers[o := false])
    case ObserverDone(o) => w.(observers := w.observers - {o})
  }

  function Start(): World {
    World([], map[], map[], map[], map[], Idle, map[], map[], {}, [], 0, 0)
  }

  ghost predicate EnabledRun(e: Env, w: World, events: seq<Event>)
    decreases |events|
  {
    events == [] || (Enabled(e, w, events[0]) && EnabledRun(e, Next(e, w, events[0]), events[1..]))
  }

  ghost function After(e: Env, w: World, events: seq<Event>): World
    requires EnabledRun(e, w, events)
    decreases |events|
  {
    if events == [] then w else After(e, Next(e, w, events[0]), events[1..])
  }
}
