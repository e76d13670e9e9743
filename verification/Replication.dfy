/** Cross-region backup replication (`backup_replication.rs`): the task queue, the status records and their
    health, and the consistency report, as values and as the replicator object. */
module Replication {
  import opened Outcomes

  type BackupId = string
  type Region = string
  type Bytes = seq<nat>
  type Key = (BackupId, Region)

  datatype Metadata = Metadata(id: BackupId, timestamp: int, sizeBytes: nat, checksum: string)

  /** A stored backup: its data and the metadata file beside it. */
  datatype Copy = Copy(data: Bytes, metadata: Metadata)

  datatype Priority = Low | Normal | High | Critical

  datatype Task = Task(backupId: BackupId, source: Region, target: Region, metadata: Metadata, priority: Priority) {
    function Key(): Key {
      (backupId, target)
    }
  }

  datatype State = Pending | InProgress | Completed | Failed | Verifying | Verified

  datatype Regional = Regional(state: State, retryCount: nat, replicatedBytes: nat)

  datatype Health = Healthy | Degraded | Unhealthy

  datatype Status = Status(primaryRegion: Region, regional: map<Region, Regional>, health: Health)

  datatype Policy = Policy(targetRegions: seq<Region>, maxRetries: nat, verify: bool, maxParallel: nat)

  // ---------------------------------------------------------------- the queue

  function Rank(p: Priority): nat {
    match p
    case Low => 0
    case Normal => 1
    case High => 2
    case Critical => 3
  }

  function OfPriority(q: seq<Task>, p: Priority): seq<Task> {
    if q == [] then []
    else
      var last := q[|q| - 1];
      OfPriority(q[..|q| - 1], p) + if last.priority == p then [last] else []
  }

  /** `sort_by_key(Reverse(priority))`, which is stable: the tasks of each priority in their old order. */
  function Sorted(q: seq<Task>): seq<Task> {
    OfPriority(q, Critical) + OfPriority(q, High) + OfPriority(q, Normal) + OfPriority(q, Low)
  }

  ghost predicate Descending(q: seq<Task>) {
    forall i, j :: 0 <= i < j < |q| ==> Rank(q[i].priority) >= Rank(q[j].priority)
  }

  lemma {:induction false} OfPriorityHas(q: seq<Task>, p: Priority)
    ensures forall t :: t in OfPriority(q, p) <==> t in q && t.priority == p
  {
    if q != [] {
      OfPriorityHas(q[..|q| - 1], p);
      assert q == q[..|q| - 1] + [q[|q| - 1]];
    }
  }

  lemma {:induction false} OfPriorityAppends(a: seq<Task>, b: seq<Task>, p: Priority)
    ensures OfPriority(a + b, p) == OfPriority(a, p) + OfPriority(b, p)
  {
    if b == [] {
      assert a + b == a;
    } else {
      OfPriorityAppends(a, b[..|b| - 1], p);
      assert (a + b)[..|a + b| - 1] == a + b[..|b| - 1];
    }
  }

  lemma {:induction false} OfPriorityTwice(q: seq<Task>, p: Priority, r: Priority)
    ensures OfPriority(OfPriority(q, p), r) == if p == r then OfPriority(q, p) else []
  {
    if q != [] {
      var last := q[|q| - 1];
      OfPriorityTwice(q[..|q| - 1], p, r);
      OfPriorityAppends(OfPriority(q[..|q| - 1], p), if last.priority == p then [last] else [], r);
    }
  }

  lemma DescendingJoin(a: seq<Task>, b: seq<Task>, p: Priority)
    requires Descending(a) && forall t :: t in a ==> Rank(t.priority) > Rank(p)
    requires forall t :: t in b ==> t.priority == p
    ensures Descending(a + b)
    ensures forall t :: t in a + b ==> Rank(t.priority) >= Rank(p)
  {
    forall i, j | 0 <= i < j < |a + b|
      ensures Rank((a + b)[i].priority) >= Rank((a + b)[j].priority)
    {
      if i < |a| <= j {
        assert (a + b)[i] in a && (a + b)[j] in b;
      } else if |a| <= i {
        assert (a + b)[i] in b && (a + b)[j] in b;
      }
    }
  }

  lemma SortDescends(q: seq<Task>)
    ensures Descending(Sorted(q))
  {
    var c, h, n, l := OfPriority(q, Critical), OfPriority(q, High), OfPriority(q, Normal), OfPriority(q, Low);
    OfPriorityHas(q, Critical);
    OfPriorityHas(q, High);
    OfPriorityHas(q, Normal);
    OfPriorityHas(q, Low);
    DescendingJoin(c, h, High);
    DescendingJoin(c + h, n, Normal);
    DescendingJoin(c + h + n, l, Low);
  }

  /** The sort is stable and loses or doubles nothing: the tasks of each priority are the same sequence. */
  lemma SortIsStable(q: seq<Task>, p: Priority)
    ensures OfPriority(Sorted(q), p) == OfPriority(q, p)
  {
    OfPriorityJoin(OfPriority(q, Critical), OfPriority(q, High), OfPriority(q, Normal), OfPriority(q, Low), p);
    OfPriorityTwice(q, Critical, p);
    OfPriorityTwice(q, High, p);
    OfPriorityTwice(q, Normal, p);
    OfPriorityTwice(q, Low, p);
    OnlyOne(OfPriority(q, p));
  }

  lemma OfPriorityJoin(c: seq<Task>, h: seq<Task>, n: seq<Task>, l: seq<Task>, p: Priority)
    ensures OfPriority(c + h + n + l, p) == OfPriority(c, p) + OfPriority(h, p) + OfPriority(n, p) + OfPriority(l, p)
  {
    OfPriorityAppends(c + h + n, l, p);
    OfPriorityAppends(c + h, n, p);
    OfPriorityAppends(c, h, p);
  }

  lemma OnlyOne(s: seq<Task>)
    ensures s + [] + [] + [] == s && [] + s + [] + [] == s && [] + [] + s + [] == s && [] + [] + [] + s == s
  {
  }

  lemma NoneBelow(q: seq<Task>, last: Task, p: Priority)
    requires Descending(q + [last]) && Rank(p) < Rank(last.priority)
    ensures OfPriority(q, p) == []
  {
    forall t | t in q
      ensures t.priority != p
    {
      var i :| 0 <= i < |q| && q[i] == t;
      assert (q + [last])[i] == t && (q + [last])[|q|] == last;
    }
    OfPriorityEmpty(q, p);
  }

  lemma {:induction false} OfPriorityEmpty(q: seq<Task>, p: Priority)
    requires forall t :: t in q ==> t.priority != p
    ensures OfPriority(q, p) == []
  {
    if q != [] {
      OfPriorityEmpty(q[..|q| - 1], p);
    }
  }

  lemma OfPriorityOne(q: seq<Task>, last: Task, p: Priority)
    ensures OfPriority(q + [last], p) == if last.priority == p then OfPriority(q, p) + [last] else OfPriority(q, p)
  {
    assert (q + [last])[..|q|] == q;
  }

  lemma SortedAppends(q: seq<Task>, last: Task)
    requires forall p :: Rank(p) < Rank(last.priority) ==> OfPriority(q, p) == []
    ensures Sorted(q + [last]) == Sorted(q) + [last]
  {
    OfPriorityOne(q, last, Critical);
    OfPriorityOne(q, last, High);
    OfPriorityOne(q, last, Normal);
    OfPriorityOne(q, last, Low);
    JoinAppends(OfPriority(q, Critical), OfPriority(q, High), OfPriority(q, Normal), OfPriority(q, Low), last);
  }

  lemma JoinAppends(c: seq<Task>, h: seq<Task>, n: seq<Task>, l: seq<Task>, last: Task)
    ensures c + h + n + (l + [last]) == c + h + n + l + [last]
    ensures l == [] ==> c + h + (n + [last]) + l == c + h + n + l + [last]
    ensures l == [] && n == [] ==> c + (h + [last]) + n + l == c + h + n + l + [last]
    ensures l == [] && n == [] && h == [] ==> (c + [last]) + h + n + l == c + h + n + l + [last]
  {
  }

  /** A descending queue is its own sort: so the sort is the only descending arrangement that keeps the
      order within each priority. */
  lemma {:induction false} DescendingIsSorted(q: seq<Task>)
    requires Descending(q)
    ensures Sorted(q) == q
  {
    if q != [] {
      var front, last := q[..|q| - 1], q[|q| - 1];
      assert q == front + [last];
      DescendingIsSorted(front);
      forall p | Rank(p) < Rank(last.priority)
        ensures OfPriority(front, p) == []
      {
        NoneBelow(front, last, p);
      }
      SortedAppends(front, last);
    }
  }

  /** Any descending arrangement with the same tasks of each priority in the same order is this sort. */
  lemma SortIsUnique(q: seq<Task>, r: seq<Task>)
    requires Descending(r) && forall p: Priority :: OfPriority(r, p) == OfPriority(q, p)
    ensures r == Sorted(q)
  {
    DescendingIsSorted(r);
  }

  /** How many queued tasks are for the key. */
  function Count(q: seq<Task>, k: Key): nat {
    if q == [] then 0 else Count(q[..|q| - 1], k) + if q[|q| - 1].Key() == k then 1 else 0
  }

  lemma {:induction false} CountAppends(a: seq<Task>, b: seq<Task>, k: Key)
    ensures Count(a + b, k) == Count(a, k) + Count(b, k)
  {
    if b == [] {
      assert a + b == a;
    } else {
      CountAppends(a, b[..|b| - 1], k);
      assert (a + b)[..|a + b| - 1] == a + b[..|b| - 1];
    }
  }

  lemma CountLast(q: seq<Task>, p: Priority, k: Key)
    requires q != []
    ensures var last := q[|q| - 1];
            Count(OfPriority(q, p), k) == Count(OfPriority(q[..|q| - 1], p), k) + if last.priority == p && last.Key() == k then 1 else 0
  {
    var front, last := OfPriority(q[..|q| - 1], p), q[|q| - 1];
    CountAppends(front, [last], k);
    assert Count([last], k) == if last.Key() == k then 1 else 0;
    assert front + [] == front;
  }

  lemma {:induction false} CountByPriority(q: seq<Task>, k: Key)
    ensures Count(q, k) == Count(OfPriority(q, Critical), k) + Count(OfPriority(q, High), k)
                           + Count(OfPriority(q, Normal), k) + Count(OfPriority(q, Low), k)
  {
    if q != [] {
      CountByPriority(q[..|q| - 1], k);
      CountLast(q, Critical, k);
      CountLast(q, High, k);
      CountLast(q, Normal, k);
      CountLast(q, Low, k);
    }
  }

  lemma SortKeepsCount(q: seq<Task>, k: Key)
    ensures Count(Sorted(q), k) == Count(q, k)
  {
    var c, h, n, l := OfPriority(q, Critical), OfPriority(q, High), OfPriority(q, Normal), OfPriority(q, Low);
    CountByPriority(q, k);
    CountAppends(c + h + n, l, k);
    CountAppends(c + h, n, k);
    CountAppends(c, h, k);
  }

  /** The tasks `replicate_backup` makes: one per target region other than the primary. */
  function TasksFor(regions: seq<Region>, primary: Region, id: BackupId, metadata: Metadata, priority: Priority): seq<Task> {
    if regions == [] then []
    else
      var region := regions[|regions| - 1];
      TasksFor(regions[..|regions| - 1], primary, id, metadata, priority)
      + if region != primary then [Task(id, primary, region, metadata, priority)] else []
  }

  function InitialRegional(regions: seq<Region>, primary: Region): map<Region, Regional> {
    map region | region in regions && region != primary :: Regional(Pending, 0, 0)
  }

  /** What the next target region adds to the tasks and to the status record. */
  lemma OneRegionMore(regions: seq<Region>, i: nat, primary: Region, id: BackupId, metadata: Metadata, priority: Priority)
    requires i < |regions|
    ensures TasksFor(regions[..i + 1], primary, id, metadata, priority) ==
              TasksFor(regions[..i], primary, id, metadata, priority)
              + if regions[i] != primary then [Task(id, primary, regions[i], metadata, priority)] else []
    ensures InitialRegional(regions[..i + 1], primary) ==
              if regions[i] != primary then InitialRegional(regions[..i], primary)[regions[i] := Regional(Pending, 0, 0)]
              else InitialRegional(regions[..i], primary)
  {
    assert regions[..i + 1][..i] == regions[..i];
    assert regions[..i + 1] == regions[..i] + [regions[i]];
  }

  function InitialStatus(regions: seq<Region>, primary: Region): Status {
    Status(primary, InitialRegional(regions, primary), Degraded)
  }

  function BatchSize(policy: Policy, q: seq<Task>): nat {
    if policy.maxParallel < |q| then policy.maxParallel else |q|
  }

  // ---------------------------------------------------------------- the status records

  function HealthOf(regional: map<Region, Regional>): Health {
    if exists r :: r in regional && regional[r].state == Failed then Unhealthy
    else if forall r :: r in regional ==> regional[r].state in {Completed, Verified} then Healthy
    else Degraded
  }

  function In(regional: map<Region, Regional>, wanted: set<State>): set<Region> {
    set r | r in regional && regional[r].state in wanted
  }

  lemma SomeIn(regional: map<Region, Regional>, wanted: set<State>)
    ensures |In(regional, wanted)| > 0 <==> exists r :: r in regional && regional[r].state in wanted
  {
    if r :| r in regional && regional[r].state in wanted {
      assert r in In(regional, wanted);
    }
  }

  lemma AllIn(regional: map<Region, Regional>, wanted: set<State>)
    ensures |In(regional, wanted)| == |regional| <==> forall r :: r in regional ==> regional[r].state in wanted
  {
    var part, whole := In(regional, wanted), regional.Keys;
    assert whole == part + (whole - part);
    assert |whole| == |regional|;
    if |part| == |whole| {
      assert whole - part == {};
    } else {
      assert whole - part != {};
    }
  }

  function Updated(r: Regional, state: State, bytes: Option<nat>): Regional {
    Regional(state, r.retryCount, if state in {Completed, Verified} && bytes.Some? then bytes.value else r.replicatedBytes)
  }

  /** `update_regional_status`. */
  function UpdateStatus(tracker: map<BackupId, Status>, k: Key, state: State, bytes: Option<nat>): map<BackupId, Status> {
    if k.0 !in tracker then tracker
    else
      var s := tracker[k.0];
      var regional := if k.1 in s.regional then s.regional[k.1 := Updated(s.regional[k.1], state, bytes)] else s.regional;
      tracker[k.0 := s.(regional := regional, health := HealthOf(regional))]
  }

  function Record(tracker: map<BackupId, Status>, k: Key): Option<Regional> {
    if k.0 in tracker && k.1 in tracker[k.0].regional then Some(tracker[k.0].regional[k.1]) else None
  }

  function RetryCount(tracker: map<BackupId, Status>, k: Key): nat {
    if Record(tracker, k).Some? then Record(tracker, k).value.retryCount else 0
  }

  /** The write at the end of a queued retry; the health is left as it is. */
  function WriteRetry(tracker: map<BackupId, Status>, k: Key, count: nat): map<BackupId, Status> {
    if Record(tracker, k) == None then tracker
    else
      var s := tracker[k.0];
      tracker[k.0 := s.(regional := s.regional[k.1 := s.regional[k.1].(retryCount := count)])]
  }

  // ---------------------------------------------------------------- the consistency report

  datatype ConsistencyStatus = ConsistencyStatus(exists_: bool, checksumMatch: bool, sizeMatch: bool, metadataMatch: bool) {
    predicate Good() {
      exists_ && checksumMatch && sizeMatch && metadataMatch
    }
  }

  function CheckCopy(copy: Option<Copy>, primary: Copy, hash: Bytes -> string): ConsistencyStatus {
    match copy
    case None => ConsistencyStatus(false, false, false, false)
    case Some(c) =>
      ConsistencyStatus(true, hash(c.data) == hash(primary.data), |c.data| == primary.metadata.sizeBytes,
                        c.metadata.id == primary.metadata.id && c.metadata.timestamp == primary.metadata.timestamp)
  }

  /** What `verify_replication` accepts: the recorded fields match and the data has the recorded hash. */
  predicate PassesVerification(c: Copy, expected: Metadata, hash: Bytes -> string) {
    && c.metadata.id == expected.id
    && c.metadata.sizeBytes == expected.sizeBytes
    && c.metadata.checksum == expected.checksum
    && hash(c.data) == c.metadata.checksum
  }

  /** A copy whose size and hash are the ones its metadata records. */
  predicate SelfConsistent(c: Copy, hash: Bytes -> string) {
    |c.data| == c.metadata.sizeBytes && hash(c.data) == c.metadata.checksum
  }

  ghost predicate Injective(hash: Bytes -> string) {
    forall a, b :: hash(a) == hash(b) ==> a == b
  }

  /** Verification and the consistency report look at different fields. For a hash without collisions, a
      copy that passed verification is reported consistent exactly when its timestamp, which
      verification never reads, is the primary's. */
  lemma VerifiedIsConsistentUpToTimestamp(c: Copy, primary: Copy, hash: Bytes -> string)
    requires Injective(hash) && SelfConsistent(primary, hash) && PassesVerification(c, primary.metadata, hash)
    ensures c.data == primary.data
    ensures CheckCopy(Some(c), primary, hash).Good() <==> c.metadata.timestamp == primary.metadata.timestamp
  {
    assert hash(c.data) == hash(primary.data);
  }

  /** A copy with the primary's data, id and timestamp. */
  predicate SameAsPrimary(copy: Option<Copy>, primary: Copy) {
    && copy.Some?
    && copy.value.data == primary.data
    && copy.value.metadata.id == primary.metadata.id
    && copy.value.metadata.timestamp == primary.metadata.timestamp
  }

  /** For a hash without collisions, any copy, whatever its metadata records, is reported good exactly when it has the
      primary's data, id and timestamp; a missing one never is. */
  lemma GoodExactlyWhenSame(copy: Option<Copy>, primary: Copy, hash: Bytes -> string)
    requires Injective(hash) && SelfConsistent(primary, hash)
    ensures CheckCopy(copy, primary, hash).Good() <==> SameAsPrimary(copy, primary)
    ensures CheckCopy(copy, primary, hash).exists_ <==> copy.Some?
    ensures CheckCopy(copy, primary, hash).checksumMatch <==> copy.Some? && copy.value.data == primary.data
    ensures CheckCopy(copy, primary, hash).sizeMatch <==> copy.Some? && |copy.value.data| == |primary.data|
    ensures CheckCopy(copy, primary, hash).metadataMatch <==>
              copy.Some? && copy.value.metadata.id == primary.metadata.id
              && copy.value.metadata.timestamp == primary.metadata.timestamp
  {
    if copy.Some? {
      assert hash(copy.value.data) == hash(primary.data) ==> copy.value.data == primary.data;
    }
  }

  /** And verification accepts exactly the copies with the primary's data whose metadata records its id, size and
      checksum. */
  lemma VerifiedExactlyWhenSame(c: Copy, primary: Copy, hash: Bytes -> string)
    requires Injective(hash) && SelfConsistent(primary, hash)
    ensures PassesVerification(c, primary.metadata, hash) <==>
              && c.data == primary.data && c.metadata.id == primary.metadata.id
              && c.metadata.sizeBytes == primary.metadata.sizeBytes && c.metadata.checksum == primary.metadata.checksum
  {
    assert hash(c.data) == hash(primary.data) ==> c.data == primary.data;
  }

  // ---------------------------------------------------------------- the object

  class CrossRegionReplicator {
    const primaryRegion: Region
    const policy: Policy
    var taskQueue: seq<Task>
    var statusTracker: map<BackupId, Status>

    constructor (primaryRegion: Region, policy: Policy)
      ensures this.primaryRegion == primaryRegion && this.policy == policy
      ensures taskQueue == [] && statusTracker == map[]
    {
      this.primaryRegion, this.policy := primaryRegion, policy;
      taskQueue, statusTracker := [], map[];
    }

    /** The loop of `replicate_backup` over the target regions. */
    method PushTasks(id: BackupId, metadata: Metadata, priority: Priority) returns (regional: map<Region, Regional>)
      modifies this`taskQueue
      ensures taskQueue == old(taskQueue) + TasksFor(policy.targetRegions, primaryRegion, id, metadata, priority)
      ensures regional == InitialRegional(policy.targetRegions, primaryRegion)
    {
      var regions := policy.targetRegions;
      regional := map[];
      for i := 0 to |regions|
        invariant taskQueue == old(taskQueue) + TasksFor(regions[..i], primaryRegion, id, metadata, priority)
        invariant regional == InitialRegional(regions[..i], primaryRegion)
      {
        OneRegionMore(regions, i, primaryRegion, id, metadata, priority);
        if regions[i] != primaryRegion {
          taskQueue := taskQueue + [Task(id, primaryRegion, regions[i], metadata, priority)];
          regional := regional[regions[i] := Regional(Pending, 0, 0)];
        }
      }
      assert regions[..|regions|] == regions;
    }

    method ReplicateBackup(id: BackupId, metadata: Metadata, priority: Priority)
      modifies this
      ensures taskQueue == Sorted(old(taskQueue) + TasksFor(policy.targetRegions, primaryRegion, id, metadata, priority))
      ensures statusTracker == old(statusTracker)[id := InitialStatus(policy.targetRegions, primaryRegion)]
    {
      var regional := PushTasks(id, metadata, priority);
      taskQueue := Sorted(taskQueue);
      statusTracker := statusTracker[id := Status(primaryRegion, regional, Degraded)];
    }

    /** The locked section that takes the next batch. */
    method DrainBatch() returns (batch: seq<Task>)
      modifies this`taskQueue
      ensures old(taskQueue) == batch + taskQueue && |batch| == BatchSize(policy, old(taskQueue))
    {
      var size := if policy.maxParallel < |taskQueue| then policy.maxParallel else |taskQueue|;
      batch := taskQueue[..size];
      taskQueue := taskQueue[size..];
    }

    /** How many regions are in one of the states. */
    static method CountIn(regional: map<Region, Regional>, wanted: set<State>) returns (n: nat)
      ensures n == |In(regional, wanted)|
    {
      n := 0;
      var rest := regional.Keys;
      while rest != {}
        invariant rest <= regional.Keys && n == |In(regional, wanted) - rest|
      {
        var r :| r in rest;
        if regional[r].state in wanted {
          assert In(regional, wanted) - (rest - {r}) == (In(regional, wanted) - rest) + {r};
          n := n + 1;
        } else {
          assert In(regional, wanted) - (rest - {r}) == In(regional, wanted) - rest;
        }
        rest := rest - {r};
      }
      assert In(regional, wanted) - rest == In(regional, wanted);
    }

    /** The two counts of `update_regional_status`, and the health they give. */
    static method ComputeHealth(regional: map<Region, Regional>) returns (h: Health)
      ensures h == HealthOf(regional)
    {
      var failed := CountIn(regional, {Failed});
      var completed := CountIn(regional, {Completed, Verified});
      SomeIn(regional, {Failed});
      AllIn(regional, {Completed, Verified});
      h := if failed > 0 then Unhealthy else if completed == |regional| then Healthy else Degraded;
    }

    method UpdateRegionalStatus(k: Key, state: State, bytes: Option<nat>)
      modifies this`statusTracker
      ensures statusTracker == UpdateStatus(old(statusTracker), k, state, bytes)
    {
      if k.0 in statusTracker {
        var s := statusTracker[k.0];
        if k.1 in s.regional {
          s := s.(regional := s.regional[k.1 := Updated(s.regional[k.1], state, bytes)]);
        }
        var h := ComputeHealth(s.regional);
        statusTracker := statusTracker[k.0 := s.(health := h)];
      }
    }

    /** `handle_replication_failure` when nothing else runs in its gaps. */
    method HandleReplicationFailure(task: Task)
      modifies this
      ensures var count := RetryCount(old(statusTracker), task.Key());
              if count < policy.maxRetries then
                taskQueue == old(taskQueue) + [task] && statusTracker == WriteRetry(old(statusTracker), task.Key(), count + 1)
              else
                taskQueue == old(taskQueue) && statusTracker == UpdateStatus(old(statusTracker), task.Key(), Failed, None)
    {
      var count := RetryCount(statusTracker, task.Key());
      if count < policy.maxRetries {
        taskQueue := taskQueue + [task];
        if Record(statusTracker, task.Key()).Some? {
          var s := statusTracker[task.backupId];
          var regional := s.regional[task.target];
          statusTracker := statusTracker[task.backupId := s.(regional := s.regional[task.target := regional.(retryCount := count + 1)])];
        }
      } else {
        UpdateRegionalStatus(task.Key(), Failed, None);
      }
    }

    /** `verify_consistency`: `stores` says what each region's store answers for this backup. */
    method VerifyConsistency(regions: seq<Region>, stores: map<Region, Copy>, primary: Copy, hash: Bytes -> string)
      returns (report: map<Region, ConsistencyStatus>, overall: bool)
      ensures report == map region | region in regions :: CheckCopy(Lookup(stores, region), primary, hash)
      ensures overall <==> forall region :: region in regions ==> CheckCopy(Lookup(stores, region), primary, hash).Good()
      ensures Injective(hash) && SelfConsistent(primary, hash) ==>
                (overall <==> forall region :: region in regions ==> region in stores && SameAsPrimary(Some(stores[region]), primary))
    {
      report, overall := map[], true;
      for i := 0 to |regions|
        invariant report == map region | region in regions[..i] :: CheckCopy(Lookup(stores, region), primary, hash)
        invariant overall <==> forall region :: region in regions[..i] ==> CheckCopy(Lookup(stores, region), primary, hash).Good()
      {
        var status := CheckCopy(Lookup(stores, regions[i]), primary, hash);
        if !status.exists_ || !status.checksumMatch || !status.sizeMatch || !status.metadataMatch {
          overall := false;
        }
        report := report[regions[i] := status];
        assert regions[..i + 1] == regions[..i] + [regions[i]];
      }
      assert regions[..|regions|] == regions;
      if Injective(hash) && SelfConsistent(primary, hash) {
        ReportedExactlyWhenSame(regions, stores, primary, hash);
      }
    }
  }

  /** The report is good overall exactly when every listed region's store has a copy that is the primary's. */
  lemma ReportedExactlyWhenSame(regions: seq<Region>, stores: map<Region, Copy>, primary: Copy, hash: Bytes -> string)
    requires Injective(hash) && SelfConsistent(primary, hash)
    ensures (forall region :: region in regions ==> CheckCopy(Lookup(stores, region), primary, hash).Good()) <==>
            forall region :: region in regions ==> region in stores && SameAsPrimary(Some(stores[region]), primary)
  {
    forall region | region in regions
      ensures CheckCopy(Lookup(stores, region), primary, hash).Good() <==>
                region in stores && SameAsPrimary(Some(stores[region]), primary)
    {
      GoodExactlyWhenSame(Lookup(stores, region), primary, hash);
    }
  }

  function Lookup(stores: map<Region, Copy>, region: Region): Option<Copy> {
    if region in stores then Some(stores[region]) else None
  }
}
