# Blixard core: verified models

Blixard is a distributed virtual-machine orchestrator written in Rust. This project models the stateful allocators,
protocols and indexes of its `blixard-core` crate in Dafny and proves what they keep over every run and every
interleaving. Where the code does not do what its names, comments or documentation promise, the model follows the
code, a lemma shows the failure, and another says exactly when the promise does hold.

Each component is modelled twice and the two are tied together. Datatypes and functions give the meaning of every
operation on values; classes with the source's fields and loops carry the same operations out in place, and each
method is proved to have the effect of its function. Whole runs are sequences of events over the values: every
theorem about runs is an induction over arbitrary event sequences, with concurrent clients split at the points where
the source gives up a lock.

| files | component |
|---|---|
| `IpSearch`, `IpPool` | one address pool: the address search, capacity arithmetic, allocation and release |
| `IpManagerState`, `IpManagerSafety`, `IpManagerRuns`, `RoundRobinFairness`, `IpManagerAnswers`, `IpManagerCommands`, `ManagerLocks`, `IpPoolManager` | the pool manager: commands, pool choice, two-phase allocation, release, loading, and its locks |
| `Replication`, `ReplicationProtocol`, `ReplicationLocks`, `ReplicationSafety`, `ReplicationResults`, `ReplicationResubmission`, `ReplicationWork`, `ReplicationBudget`, `ReplicationExamples` | the cross-region replicator as data, as an object, and as a protocol of clients, dispatcher, workers and observers at the granularity of their lock acquisitions |
| `BackupChain`, `BackupRuns`, `BackupBases`, `BackupInterval` | full and incremental backups, retention, selection for point-in-time recovery |
| `AuditLog`, `AuditRoundTrip`, `AuditRotation`, `AuditOrder`, `AuditAnswers`, `AuditCodec` | the audit log's writer with rotation and removal, and its time-window reader |
| `AntiAffinity`, `AntiAffinityLimits` | the anti-affinity index, its gates, and the limits they keep |
| `TtlCache` | the cache with expiring entries and its interleaved clients |
| `Linearizability`, `Lifecycles`, `RecordedRuns` | the operation history, its check, and recording clients against an atomic store |

## What the code promises and does not do

For each, the first lemma gives the exact condition under which the promise holds, the others failing inputs.

- `total_capacity` is meant to be the number of addresses a pool can hand out. It is, for IPv4, only if the range is not
  the whole address space and the reserved addresses outside the range are as many as the unreserved gateways inside
  it; for IPv6 also the addresses beyond the 10000 that are searched count
  (`IpSearch.CapacityIsUsableCount`, `IpSearch.Ipv6CapacityIsUsableCount`; `IpSearch.GatewayIsCounted`,
  `IpSearch.SearchFallsShort`).
- `release_ip` frees the address but never the permit of the resource pool, so a pool serves at most `total_capacity`
  allocations in its life, and a loaded pool has permits for addresses that are already out: `has_capacity` does not
  mean that an address is free (`IpPool.CapacityMeansFreeAddress`; `IpPool.ReleaseLosesCapacity`,
  `IpPool.LoadedPoolLacksAddress`).
- Nothing compares the ranges of two pools. Two pools never give one address to two machines exactly when the addresses
  their permits reach have none in common (`IpManagerRuns.DisjointExactlyWhenSafe`; `IpManagerRuns.OverlapIsShared`).
- A load stopped by an invalid configuration leaves pools behind whose records were never loaded
  (`IpManagerRuns.StoppedLoad`; `IpManagerRuns.StoppedLoadDisagrees`).
- A reservation and an update change the configuration a pool shows, while its allocations go on searching with the one it
  was made with. They keep off addresses reserved since exactly when those are not among the least free ones the permits
  reach, and fit an updated subnet, gateway and reservations exactly when all of these do
  (`IpManagerCommands.ReservedKeptExactlyWhenUnreached`, `IpManagerCommands.GrantsFitExactlyWhen`;
  `IpManagerCommands.ReservedIsHandedOut`).
- The least utilised strategy compares utilisation in whole thousandths of a percent. Among pools of one size it finds one
  with the fewest addresses in use, in every state, exactly when that size is at most 100000
  (`IpManagerAnswers.LeastInUseExactlyWhenSmall`; `IpManagerAnswers.LargePoolsMislead`).
- `release_vm_ips` takes the manager's locks in another order than `allocate_ip` and `load_from_storage`. Operations run
  together can wait for each other for ever exactly when there is a release among them, and a commit or a load
  (`ManagerLocks.DeadlockExactlyWhenOrdersMeet`; `ManagerLocks.CrossedRun`, `ManagerLocks.CrossedIsDeadlocked`).
- Verification of a replica does not read its timestamp, the consistency report does
  (`Replication.VerifiedIsConsistentUpToTimestamp`, `ReplicationResults.VerifiedRegionsAreConsistent`;
  `ReplicationExamples.VerifiedButInconsistent`). A verification whose region lookup fails leaves the region
  `Verifying` for ever: a region that is no longer worked on is final exactly when no verification of it in the run
  failed to find its storage (`ReplicationResults.FinalExactlyWhenStorageFound`;
  `ReplicationExamples.VerifyingForever`). A backup without a remote region stays
  `Degraded` (`ReplicationResults.HealthIsHonest`; `ReplicationExamples.PrimaryAloneStaysDegraded`).
- `replicate_backup` accepts an id that already has a record and queues its regions again. A run has one task per
  unfinished region in all its states exactly when no client in it does that
  (`ReplicationResubmission.OneTaskExactlyWhenFresh`; `ReplicationResubmission.ResubmissionDoubles`).
- Two incremental backups in one second have the same id, and the second overwrites the first: the chain then has a
  gap (`BackupRuns.ChainTilesExactlyWhenSecondsDiffer`; `BackupRuns.SecondOverwritesFirst`).
- Retention counts full and incremental backups alike. A complete pass that deletes something leaves every incremental
  its base exactly when the last backup it keeps is a full one
  (`BackupBases.BasesKeptExactlyWhenCutAtFull`; `BackupBases.RetentionStrandsIncremental`).
- Point-in-time recovery is documented to start from the latest backup before the target. The listing runs from newest
  to oldest, so it starts from the oldest full backup and applies the incrementals older than that. It does what it is
  for only when a single full backup and no incremental precede the target
  (`BackupRuns.RecoversExactlyWhenAlone`; `BackupRuns.RecoversOlder`, `BackupRuns.RecoversWithoutIncrement`).
- An audit event whose text contains the signature separator is lost when it is read
  (`AuditRoundTrip.LineReadsBack`; `AuditCodec.SeparatorIsLost`).
- A rotation deletes the files written longest ago. Every file holds exactly the events logged to it if and only if no
  rotation of the run leaves more files than are to be kept
  (`AuditRotation.NothingLostExactlyWhenNoneSpilled`; `AuditRotation.OneFileKept`).
- The query stops at the first event later than its window, and a rotated file of a day is read before the file it
  continues. After a run that deletes nothing, the query returns the matching events of the run exactly when, in the
  order of the files' names, no wanted event comes after a later one
  (`AuditRotation.RunThenQueried`; `AuditRoundTrip.RotatedIsReadFirst`, `AuditRotation.RunHidesEvent`).
- Rotated files are numbered with at least three digits and read in the order of their names: those of one day are read in
  the order of their numbers exactly when there are fewer than a thousand
  (`AuditOrder.NumbersInOrderExactlyBelowThousand`).
- `get_violating_nodes` omits nodes that a hard rule with limit zero refuses
  (`AntiAffinityLimits.ListsExactlyTheRefused`; `AntiAffinityLimits.ZeroLimitIsNotListed`).
- The scheduler records every machine on node 0, so its gate keeps a limit in every run exactly when it admits no
  machine of the group at all (`AntiAffinityLimits.SchedulerKeepsLimitExactlyWhenBarred`;
  `AntiAffinityLimits.SchedulerBreaksLimit`).
- An invalidated key can still be served with an older value by a client that was computing one or about to store it
  (`TtlCache.InvalidatedExactlyWhenNoneUnderWay`; `TtlCache.InvalidationIsLost`).
- The consistency check of recorded histories is exact for creations, refuses good histories with deletions, and does
  not look at other operations. A history of creations, deletions, starts and stops has a legal order exactly when each
  name's counts fit (`Linearizability.CreationsExactlyChecked`, `Lifecycles.LegalOrderExactlyWhenBalanced`; `Linearizability.DeletionsMislead`,
  `Linearizability.StartsAreUnchecked`).

## What is assumed

- Clocks, random choices, the outcome of storage calls and the iteration order of hash maps are parameters or parts of
  events; every theorem holds for all of them.
- Hashing, signing and serialisation are function parameters. The audit round trip assumes of them what
  `AuditRoundTrip.GoodCodec` says, which `AuditCodec.PlainCodecIsGood` shows can be met; the consistency of replicas
  assumes that the hash has no collisions.
- No two audit files have the same modification time, an audit log starts in an empty directory, and its operations
  happen one at a time.
- A critical section under a lock is one step. `allocate_ip` is two steps, choice and commit; `replicate_backup` and
  `begin` take their locks in separate steps and keep them as the source does.
- The replicator's target regions are distinct and one dispatcher runs. `Reachable` runs are those in which no client
  queues a backup that already has a record; `ReplicationResubmission` and `ReplicationLocks` are about all runs.
- Full and incremental backups happen one at a time and at strictly increasing instants.

## Model

| member | source | states |
|---|---|---|
| `IpSearch.FindNextAvailable` | blixard-core/src/ip_pool.rs:83-124 | the search loop returns the least address of its window that is usable and not taken, and nothing exactly when all usable addresses are taken |
| `IpSearch.SearchIsLeast` | blixard-core/src/ip_pool.rs:83-132 | the same of the search as a function, for IPv4 and for the bounded IPv6 scan |
| `IpSearch.UsableSize` | blixard-core/src/ip_pool.rs:127-132 | the number of addresses a pool can ever hand out, by counting range, reservations and gateway |
| `IpSearch.CapacityIsUsableCount` | blixard-core/src/ip_pool.rs:281-298 | if and only if: the wrapping 64-bit `total_capacity` is that number exactly under a condition on the configuration |
| `IpSearch.GatewayIsCounted` | blixard-core/src/ip_pool.rs:281-298 | a concrete pool that counts two addresses and can hand out one |
| `IpSearch.Ipv6CapacityIsOffByExcess` | blixard-core/src/ip_pool.rs:281-298 | an IPv6 pool's capacity exceeds its usable count by the unsearched addresses and the gateway less the reservations outside the window, up to 64-bit wrap-around |
| `IpSearch.Ipv6CapacityIsUsableCount` | blixard-core/src/ip_pool.rs:281-298 | if and only if: the IPv6 capacity is the usable count exactly when that excess is a multiple of 2^64 |
| `IpSearch.Ipv6ExcessIsZero` | blixard-core/src/ip_pool.rs:281-298 | if and only if: with fewer than 2^64 reservations that means exactly as many reservations outside the window as counted addresses beyond the search and unreserved gateways |
| `IpSearch.SearchFallsShort` | blixard-core/src/ip_pool.rs:83-124 | a concrete IPv6 pool that counts 10001 addresses and can hand out 10000 |
| `IpPool.EnhancedIpPoolState.constructor` | blixard-core/src/ip_pool.rs:393-420 | the pool around an existing state, with a permit per unit of capacity |
| `IpPool.EnhancedIpPoolState.AllocateIp` | blixard-core/src/ip_pool.rs:423-440 | in place, the allocation on values: permit, reuse or search, both address sets, counter and time |
| `IpPool.EnhancedIpPoolState.ReleaseIp` | blixard-core/src/ip_pool.rs:443-459 | in place, the release on values, with its saturating counter |
| `IpPool.EnhancedIpPoolState.SyncState` | blixard-core/src/ip_pool.rs:500-515 | the tracked set and counter become those of the shared set |
| `IpPool.AllocateKeepsInv` | blixard-core/src/ip_pool.rs:423-440 | allocation keeps the two address sets and the counter equal, succeeds exactly while a permit and a usable address are left, gives the least one, and changes nothing when it fails |
| `IpPool.ReleaseKeepsInv` | blixard-core/src/ip_pool.rs:443-459 | release keeps them equal, removes exactly the address, and leaves the permits alone |
| `IpPool.AllocatedIsInReach` | blixard-core/src/ip_pool.rs:423-440 | an allocation gives one of the least usable addresses, as many as are out and permits are left, and keeps that bound |
| `IpPool.ReleaseNarrowsReach` | blixard-core/src/ip_pool.rs:443-459 | a release never widens what a pool can still hand out |
| `IpPool.RunInv` | blixard-core/src/ip_pool.rs:356-515 | over any run from any stored state: addresses out plus addresses returned are the addresses out at the start plus the allocations served |
| `IpPool.SearchesAgree` | blixard-core/src/ip_pool.rs:530-568 | in every run from any stored state the factory's and the state's searches agree, and fail exactly when all usable addresses are out |
| `IpPool.LastAllocationIsLatest` | blixard-core/src/ip_pool.rs:423-440 | over any run the recorded last allocation is the last that succeeded |
| `IpPool.ExhaustedExactlyAtCapacity` | blixard-core/src/ip_pool_manager.rs:510-511 | when the capacity is the usable count, a pool, new or loaded, is exhausted exactly when its addresses number `total_capacity`, and the subtraction of the statistics never underflows |
| `IpPool.LifetimeAllocations` | blixard-core/src/patterns/resource_pool.rs:227-282 | a pool serves at most `total_capacity` allocations in its life and reports capacity exactly while it has served fewer |
| `IpPool.CapacityMeansFreeAddress` | blixard-core/src/ip_pool.rs:462-474 | if and only if: for any pool and any run, reported capacity means a free address exactly under a condition on the numbers of usable addresses, addresses out at the start, allocations served and addresses released |
| `IpPool.ReleaseLosesCapacity` | blixard-core/src/ip_pool.rs:443-474 | a concrete pool that refuses to allocate its only, free, address |
| `IpPool.LoadedPoolLacksAddress` | blixard-core/src/ip_pool.rs:393-420 | a concrete loaded pool that reports capacity and has no address |
| `IpPool.NextAfterRelease` | blixard-core/src/ip_pool.rs:443-459 | after a release the next answer is the smaller of the freed address and the old answer, or the old answer for an address outside the search |
| `IpManagerState.EligiblePools` | blixard-core/src/ip_pool_manager.rs:371-402 | exactly the enabled pools with matching tags and hint and with capacity |
| `IpManagerState.LeastUsed` | blixard-core/src/ip_pool_manager.rs:412-425 | a pool of least utilisation among the eligible |
| `IpManagerState.MostUsed` | blixard-core/src/ip_pool_manager.rs:426-439 | a pool of greatest utilisation among the eligible |
| `IpManagerState.FirstWithHint` | blixard-core/src/ip_pool_manager.rs:446-455 | an eligible pool with the hint, or none exactly when no eligible pool has it |
| `IpManagerState.Pick` | blixard-core/src/ip_pool_manager.rs:411-474 | every strategy chooses an eligible pool; the least utilised has the least key, the most utilised the greatest, round robin the counter's, and only round robin moves the counter |
| `IpManagerSafety.NoAddressHeldTwice` | blixard-core/src/ip_pool_manager.rs:28-38 | from the invariant: no address is in two machines' lists, its record names the machine, and its pool exists and counts it |
| `IpManagerSafety.RecordsMatchList` | blixard-core/src/ip_pool_manager.rs:487-499 | from the invariant: a machine's records are one per address of its list, in order, each naming the machine |
| `IpManagerSafety.ExecuteKeepsConsistent` | blixard-core/src/ip_pool_manager.rs:113-253 | every pool command keeps the four views equal, creation if the new range is clear, and a refused command changes nothing |
| `IpManagerSafety.CommitKeepsConsistent` | blixard-core/src/ip_pool_manager.rs:285-332 | the second phase keeps them equal whatever happened since the first, records an address nobody held, and changes nothing when it fails |
| `IpManagerSafety.ReleaseKeepsConsistent` | blixard-core/src/ip_pool_manager.rs:335-362 | release removes exactly the machine's records and keeps the views equal |
| `IpManagerSafety.ReleaseLeavesRest` | blixard-core/src/ip_pool_manager.rs:335-362 | a release leaves the pools' configurations, their permits and the selection counter alone |
| `IpManagerRuns.LoadIsConsistent` | blixard-core/src/ip_pool_manager.rs:51-95 | a successful load of separated data makes all views agree |
| `IpManagerRuns.StoppedLoad` | blixard-core/src/ip_pool_manager.rs:51-95 | if and only if: a load stopped at its first invalid configuration returns that error and no records, and its views agree exactly when no stored allocation names one of the pools configured before it |
| `IpManagerRuns.StoppedLoadDisagrees` | blixard-core/src/ip_pool_manager.rs:51-95 | a valid pool with a stored allocation before any invalid configuration is such a load |
| `ManagerLocks.RunsAreWellFormed` | blixard-core/src/ip_pool_manager.rs:51-362 | in every run each operation has taken a first part of its locks |
| `ManagerLocks.RanksClimb` | blixard-core/src/ip_pool_manager.rs:51-332 | along threads that wait for each other and take their locks in one order, the locks waited for climb |
| `ManagerLocks.OneOrderIsSafe` | blixard-core/src/ip_pool_manager.rs:51-332 | so operations that take their locks in one order never wait in a ring |
| `ManagerLocks.CrossedRun` | blixard-core/src/ip_pool_manager.rs:285-338 | the run in which a commit takes the pools and a release the records and the lists |
| `ManagerLocks.CrossedIsDeadlocked` | blixard-core/src/ip_pool_manager.rs:285-338 | after it the two wait for each other |
| `ManagerLocks.DeadlockExactlyWhenOrdersMeet` | blixard-core/src/ip_pool_manager.rs:51-362 | if and only if: some interleaving of the given operations ends with threads waiting in a ring exactly when there is a release among them, and a commit or a load |
| `ManagerLocks.DeadlockIsForever` | blixard-core/src/ip_pool_manager.rs:51-362 | such a ring is still waiting after every further run |
| `ManagerLocks.RunsAreExclusive` | blixard-core/src/ip_pool_manager.rs:51-362 | in every run no lock is held by two threads, unless both only read |
| `ManagerLocks.TogetherExactlyWhenCompatible` | blixard-core/src/ip_pool_manager.rs:51-362 | if and only if: two operations can be at work at the same time exactly when neither changes what the other changes or looks at |
| `IpManagerRuns.NextKeepsConsistent` | blixard-core/src/ip_pool_manager.rs:98-362 | one step of any client keeps the views equal |
| `IpManagerRuns.RunsStayConsistent` | blixard-core/src/ip_pool_manager.rs:98-362 | every interleaving of commands, releases and both phases of any number of allocations keeps the views equal |
| `IpManagerRuns.LoadedRunsNeverShare` | blixard-core/src/ip_pool_manager.rs:51-362 | from loading on, no run puts an address into two machines' lists |
| `IpManagerRuns.OverlapIsShared` | blixard-core/src/ip_pool_manager.rs:114-130 | for any address within the permits of two pools, a run that gives it to two machines |
| `IpManagerRuns.DisjointExactlyWhenSafe` | blixard-core/src/ip_pool_manager.rs:114-130 | if and only if: two pools are safe in every run exactly when their least `total_capacity` usable addresses are disjoint |
| `RoundRobinFairness.OneCycle` | blixard-core/src/ip_pool_manager.rs:440-445 | as many selections as pools are a rotation of the eligible list, from any counter |
| `RoundRobinFairness.EachPoolEquallyOften` | blixard-core/src/ip_pool_manager.rs:440-445 | over k times as many selections each pool is chosen exactly k times |
| `IpManagerAnswers.ChosenIsOffered` | blixard-core/src/ip_pool_manager.rs:365-474 | a request without a preferred pool is refused exactly when no enabled pool with matching tags and hint has capacity, and otherwise gets one |
| `IpManagerAnswers.PreferredIsGiven` | blixard-core/src/ip_pool_manager.rs:255-283 | a preferred pool is given exactly when it exists, is enabled and has capacity, with the error otherwise |
| `IpManagerAnswers.KeyIsThousandths` | blixard-core/src/ip_pool.rs:477-488 | the key compared is the reported utilisation in thousandths of a percent, rounded down |
| `IpManagerAnswers.LeastUtilizedIsLeast` | blixard-core/src/ip_pool_manager.rs:412-425 | no pool that may be given undercuts the chosen one's share in use by a thousandth of a percent |
| `IpManagerAnswers.MostUtilizedIsMost` | blixard-core/src/ip_pool_manager.rs:426-439 | none exceeds it by that |
| `IpManagerAnswers.TopologyAwarePrefersHint` | blixard-core/src/ip_pool_manager.rs:446-466 | a pool with the hint whenever one may be given, else one of least share |
| `IpManagerAnswers.RandomReachesAll` | blixard-core/src/ip_pool_manager.rs:467-470 | every pool that may be given can be the one chosen at random |
| `IpManagerAnswers.LeastInUseExactlyWhenSmall` | blixard-core/src/ip_pool_manager.rs:412-425 | if and only if: among pools of one size the one chosen has the fewest addresses in use, in every state, exactly when the size is at most 100000 |
| `IpManagerAnswers.LargePoolsMislead` | blixard-core/src/ip_pool_manager.rs:412-425 | for every larger size, two pools of which the one with an address in use is chosen |
| `IpManagerAnswers.RoundRobinIsFair` | blixard-core/src/ip_pool_manager.rs:440-445 | while n pools may be given, each is chosen k times in k times n requests, from any counter |
| `IpManagerAnswers.GrantIsWhole` | blixard-core/src/ip_pool_manager.rs:285-332 | a grant tells the machine the least free address, which is the next in its list, and the current subnet, gateway, DNS servers and VLAN of the pool, with its own MAC address |
| `IpManagerAnswers.GrantIsRecorded` | blixard-core/src/ip_pool_manager.rs:285-332 | the record names machine, pool, MAC address and instant, without expiry, and nothing else of the manager changes |
| `IpManagerCommands.RefusedExactlyWhen` | blixard-core/src/ip_pool_manager.rs:113-253 | if and only if: when each command is refused, and when because its pool exists or is missing |
| `IpManagerCommands.ChangesOnlyItsPool` | blixard-core/src/ip_pool_manager.rs:113-253 | a refused command changes nothing, and any other nothing but its pool |
| `IpManagerCommands.ValidExactlyWhen` | blixard-core/src/ip_pool.rs:198-278 | if and only if: a configuration is accepted exactly when gateway, range and reservations lie in the subnet, the range runs forwards and the VLAN is from 1 to 4094 |
| `IpManagerCommands.DeleteUndoesCreate` | blixard-core/src/ip_pool_manager.rs:113-185 | deleting a pool just created restores the manager |
| `IpManagerCommands.CreatedIsEmpty` | blixard-core/src/ip_pool_manager.rs:113-130 | a created pool is empty, with its configuration and a permit per unit of capacity |
| `IpManagerCommands.UpdateUndoesUpdate` | blixard-core/src/ip_pool_manager.rs:133-160 | an update changes nothing but the tracked configuration, and updating back restores the manager |
| `IpManagerCommands.ReleaseUndoesReserve` | blixard-core/src/ip_pool_manager.rs:203-253 | releasing addresses just reserved restores the manager |
| `IpManagerCommands.DisabledIsNotChosen` | blixard-core/src/ip_pool_manager.rs:187-200 | no request is given a disabled pool, not even one that prefers it |
| `IpManagerCommands.EnabledIsChosen` | blixard-core/src/ip_pool_manager.rs:187-200 | if and only if: an enabled pool is given to a request that prefers it exactly while it has capacity |
| `IpManagerCommands.AllocationsTakeLeastFree` | blixard-core/src/ip_pool.rs:423-440 | consecutive allocations hand out exactly the least free addresses, one each while permits last |
| `IpManagerCommands.ReservedAreNotFound` | blixard-core/src/ip_pool_manager.rs:203-235 | after a reservation the search over the tracked configuration finds none of the addresses reserved |
| `IpManagerCommands.ReservedKeptExactlyWhenUnreached` | blixard-core/src/ip_pool_manager.rs:203-235 | if and only if: allocations keep off them exactly when they are not among the least free addresses the permits reach |
| `IpManagerCommands.ReservedIsHandedOut` | blixard-core/src/ip_pool_manager.rs:203-235 | a pool whose only address is reserved and handed out all the same |
| `IpManagerCommands.GrantsFitExactlyWhen` | blixard-core/src/ip_pool_manager.rs:133-160 | if and only if: after an update every address handed out fits the new subnet, gateway and reservations exactly when the least free ones the permits reach do |
| `IpPoolManager.Manager.constructor` | blixard-core/src/ip_pool_manager.rs:41-48 | an empty manager |
| `IpPoolManager.Manager.CreatePool` | blixard-core/src/ip_pool_manager.rs:114-130 | in place, the command on values, errors included |
| `IpPoolManager.Manager.UpdatePool` | blixard-core/src/ip_pool_manager.rs:133-160 | in place, the command on values: only the tracked configuration changes, then the state is synchronised |
| `IpPoolManager.Manager.DeletePool` | blixard-core/src/ip_pool_manager.rs:163-184 | in place, the command on values: refused while addresses are allocated |
| `IpPoolManager.Manager.SetPoolEnabled` | blixard-core/src/ip_pool_manager.rs:187-199 | in place, the command on values |
| `IpPoolManager.Manager.ReserveIps` | blixard-core/src/ip_pool_manager.rs:202-231 | in place, the command on values: refused when an address is allocated or outside the subnet |
| `IpPoolManager.Manager.ReleaseReservedIps` | blixard-core/src/ip_pool_manager.rs:234-253 | in place, the command on values |
| `IpPoolManager.Manager.LoadPoolConfigs` | blixard-core/src/ip_pool_manager.rs:51-84 | the loading loop, stopped by the first invalid configuration |
| `IpPoolManager.Manager.LoadFromStorage` | blixard-core/src/ip_pool_manager.rs:51-95 | in place, the load on values |
| `IpPoolManager.Manager.FilterEligible` | blixard-core/src/ip_pool_manager.rs:371-402 | the filtering loop gives the eligible pools in iteration order |
| `IpPoolManager.Manager.CollectUsage` | blixard-core/src/ip_pool_manager.rs:412-418 | the loop that collects the eligible pools' utilisation |
| `IpPoolManager.Manager.MinByKey` | blixard-core/src/ip_pool_manager.rs:412-425 | the minimum loop, first of equals |
| `IpPoolManager.Manager.MaxByKey` | blixard-core/src/ip_pool_manager.rs:426-439 | the maximum loop, last of equals |
| `IpPoolManager.Manager.FindLeastUsed` | blixard-core/src/ip_pool_manager.rs:412-425 | a first pool of least utilisation |
| `IpPoolManager.Manager.FindMostUsed` | blixard-core/src/ip_pool_manager.rs:426-439 | a last pool of greatest utilisation |
| `IpPoolManager.Manager.PreferHinted` | blixard-core/src/ip_pool_manager.rs:446-467 | the hinted pool, or the least utilised |
| `IpPoolManager.Manager.FindHinted` | blixard-core/src/ip_pool_manager.rs:446-455 | the loop that looks for the hint |
| `IpPoolManager.Manager.SelectPool` | blixard-core/src/ip_pool_manager.rs:365-475 | the choice among eligible pools, moving only the counter |
| `IpPoolManager.Manager.ChoosePool` | blixard-core/src/ip_pool_manager.rs:260-283 | the first phase of an allocation on values, preferred pool included |
| `IpPoolManager.Manager.CommitAllocation` | blixard-core/src/ip_pool_manager.rs:285-332 | the second phase on values: pool, record, machine list and the granted network settings |
| `IpPoolManager.Manager.ReleaseVmIps` | blixard-core/src/ip_pool_manager.rs:335-362 | the release loop on values |
| `IpPoolManager.Manager.GetVmAllocations` | blixard-core/src/ip_pool_manager.rs:487-499 | exactly the records of the machine's addresses that have one, in list order |
| `IpPoolManager.Manager.GetPoolStats` | blixard-core/src/ip_pool_manager.rs:502-522 | the statistics of a pool: counts, utilisation, and the available count with and without wrap-around |
| `Replication.SortDescends` | blixard-core/src/backup_replication.rs:385-386 | the queue sort puts higher priorities first |
| `Replication.SortIsStable` | blixard-core/src/backup_replication.rs:385-386 | it keeps the sequence of tasks of each priority |
| `Replication.SortIsUnique` | blixard-core/src/backup_replication.rs:385-386 | it is the only arrangement with both properties |
| `Replication.SortKeepsCount` | blixard-core/src/backup_replication.rs:385-386 | it loses and doubles no task of any key |
| `Replication.VerifiedIsConsistentUpToTimestamp` | blixard-core/src/backup_replication.rs:609-688 | if and only if: a copy that passed verification is reported consistent exactly when its timestamp is the primary's |
| `Replication.GoodExactlyWhenSame` | blixard-core/src/backup_replication.rs:784-860 | if and only if: any copy, or a missing one, is reported good exactly when it has the primary's data, id and timestamp, and what each field of the report means |
| `Replication.VerifiedExactlyWhenSame` | blixard-core/src/backup_replication.rs:609-688 | if and only if: verification accepts exactly the copies with the primary's data whose metadata records its id, size and checksum |
| `Replication.ReportedExactlyWhenSame` | blixard-core/src/backup_replication.rs:784-860 | if and only if: the report is good overall exactly when every listed region's store has a copy that is the primary's |
| `Replication.CrossRegionReplicator.constructor` | blixard-core/src/backup_replication.rs:282-298 | an empty queue and tracker |
| `Replication.CrossRegionReplicator.PushTasks` | blixard-core/src/backup_replication.rs:362-383 | the loop that queues a task and a `Pending` record per remote region |
| `Replication.CrossRegionReplicator.ReplicateBackup` | blixard-core/src/backup_replication.rs:347-395 | the queue becomes the stable sort of the old queue and the new tasks, the status record is stored |
| `Replication.CrossRegionReplicator.DrainBatch` | blixard-core/src/backup_replication.rs:406-410 | a batch is a prefix of the queue of at most the parallel limit |
| `Replication.CrossRegionReplicator.CountIn` | blixard-core/src/backup_replication.rs:712-719 | a counting loop gives the number of regions in the wanted states |
| `Replication.CrossRegionReplicator.ComputeHealth` | blixard-core/src/backup_replication.rs:712-727 | the two counts give unhealthy with a failed region, healthy with all done, else degraded |
| `Replication.CrossRegionReplicator.UpdateRegionalStatus` | blixard-core/src/backup_replication.rs:691-733 | the region's record and the derived health |
| `Replication.CrossRegionReplicator.HandleReplicationFailure` | blixard-core/src/backup_replication.rs:553-606 | a retry is queued and counted while any is left, else the region fails |
| `Replication.CrossRegionReplicator.VerifyConsistency` | blixard-core/src/backup_replication.rs:784-860 | the report per region, and overall consistency exactly when every region's copy is good, that is, for a hash without collisions, the primary's |
| `ReplicationLocks.LocksGained` | blixard-core/src/backup_replication.rs:347-449 | only an acquisition gives a thread a lock, and only the one it waited for |
| `ReplicationLocks.AcquisitionGives` | blixard-core/src/backup_replication.rs:347-449 | an acquisition gives the thread the lock it waited for |
| `ReplicationLocks.ExclusionKept` | blixard-core/src/backup_replication.rs:347-733 | every step keeps conflicting locks with one holder |
| `ReplicationLocks.NoWaitingCycle` | blixard-core/src/backup_replication.rs:347-395 | in no state do threads wait for the queue and tracker locks in a circle |
| `ReplicationLocks.SomeThreadMoves` | blixard-core/src/backup_replication.rs:347-733 | whenever a thread is at work, some thread can take a step |
| `ReplicationSafety.NextKeepsInv` | blixard-core/src/backup_replication.rs:347-733 | every step of every thread keeps the position of each key's worker, its record, its queued tasks, its attempts and its copy in accord |
| `ReplicationSafety.RunKeepsInv` | blixard-core/src/backup_replication.rs:347-733 | so does every run |
| `ReplicationSafety.DrainedIsStored` | blixard-core/src/backup_replication.rs:347-410 | while the dispatcher holds the queue no client is between queueing and registering a key |
| `ReplicationResults.OneTaskUntilFinal` | blixard-core/src/backup_replication.rs:398-449 | in every state reachable without resubmission a registered key has exactly one task, queued or in flight, until it is final or orphaned, then none |
| `ReplicationResults.NoLostRetry` | blixard-core/src/backup_replication.rs:553-606 | the unlocked gap between reading and writing the retry count loses no increment |
| `ReplicationResults.AttemptsAreBounded` | blixard-core/src/backup_replication.rs:564-605 | no key is attempted more than `max_retries + 1` times |
| `ReplicationResults.NothingDrainedUnregistered` | blixard-core/src/backup_replication.rs:347-410 | no task is drained before its status record is stored |
| `ReplicationResults.SettledStays` | blixard-core/src/backup_replication.rs:592-599 | a final or orphaned region stays as it is for the rest of every run |
| `ReplicationResults.RestsFinalUnlessOrphaned` | blixard-core/src/backup_replication.rs:609-688 | if and only if: a registered key that is neither queued nor worked on is final exactly when it is not orphaned |
| `ReplicationResults.OrphanedRun` | blixard-core/src/backup_replication.rs:609-688 | if and only if: a run orphans a key exactly when it has a verification by the key's worker that does not find its storage |
| `ReplicationResults.FinalExactlyWhenStorageFound` | blixard-core/src/backup_replication.rs:609-688 | if and only if: so a key that is neither queued nor worked on is final exactly when no verification of it in the run lost its storage |
| `ReplicationResubmission.FreshKeepsOneTask` | blixard-core/src/backup_replication.rs:347-395 | one task per unfinished key in every state of a run without resubmission |
| `ReplicationResubmission.RequeueDoubles` | blixard-core/src/backup_replication.rs:347-395 | a client that queues a backup with a record leaves every one of its keys with a task too many |
| `ReplicationResubmission.StaleBreaksOneTask` | blixard-core/src/backup_replication.rs:347-395 | so a run with a resubmission has a state with a task too many |
| `ReplicationResubmission.OneTaskExactlyWhenFresh` | blixard-core/src/backup_replication.rs:347-395 | if and only if: any run of a policy with a remote region has one task per unfinished key in all its states exactly when no client in it queues a backup with a record |
| `ReplicationResubmission.ResubmissionDoubles` | blixard-core/src/backup_replication.rs:347-395 | a run that submits one backup twice and has two tasks for its region |
| `ReplicationResults.HealthIsHonest` | blixard-core/src/backup_replication.rs:712-727 | if and only if: the stored health is the one its regions define exactly when there is a remote region |
| `ReplicationResults.HealthSaysWhich` | blixard-core/src/backup_replication.rs:712-727 | if and only if: in every reachable state the health is `Healthy` exactly when every remote region is completed or verified, and `Unhealthy` exactly when one has failed |
| `ReplicationWork.SubmittedTasks` | blixard-core/src/backup_replication.rs:347-395 | if and only if: a submission queues a task for each target region besides the primary and no other, from the primary, with its own id, metadata and priority |
| `ReplicationWork.WorkersAreBounded` | blixard-core/src/backup_replication.rs:398-449 | in every run, resubmissions included, at most `max_parallel` workers are at work, each copying from the primary to a target region |
| `ReplicationWork.BatchIsFront` | blixard-core/src/backup_replication.rs:398-449 | a batch is the front of the queue, one worker for each task, as many as allowed |
| `ReplicationWork.BytesAreHonest` | blixard-core/src/backup_replication.rs:691-733 | in every reachable state a region that was copied records the size of the primary's data, and one not yet copied records nothing |
| `ReplicationResults.UnhealthyForever` | blixard-core/src/backup_replication.rs:592-599 | a backup once unhealthy is unhealthy for the rest of every run |
| `ReplicationResults.QueueOrder` | blixard-core/src/backup_replication.rs:385-386 | in every reachable state the queue is a descending part followed by exactly the retries appended since the last enqueue, all of keys attempted before |
| `ReplicationResults.VerifiedRegionsAreConsistent` | blixard-core/src/backup_replication.rs:784-860 | if and only if: with all targets verified the report is good exactly when every copy kept the primary's timestamp |
| `ReplicationBudget.BudgetSuffices` | blixard-core/src/backup_replication.rs:406-410 | drained tasks never exceed keys times `max_retries + 1`, and an exhausted budget at rest means an empty queue |
| `ReplicationBudget.OnlyBatchesSpend` | blixard-core/src/backup_replication.rs:406-449 | without clients only a drain spends budget, and spends it whenever the queue is not empty |
| `ReplicationBudget.BatchesRunOut` | blixard-core/src/backup_replication.rs:398-449 | without new backups the batches still to come are bounded by the budget, in every interleaving |
| `ReplicationBudget.QueueEmpties` | blixard-core/src/backup_replication.rs:398-449 | without new backups every run that drains more often than the budget ends with an empty queue |
| `ReplicationExamples.PrimaryAloneStaysDegraded` | blixard-core/src/backup_replication.rs:354-395 | a run whose backup is `Degraded` for ever although nothing is missing |
| `ReplicationExamples.VerifiedButInconsistent` | blixard-core/src/backup_replication.rs:609-688 | a reachable state with a verified region that the consistency report rejects |
| `ReplicationExamples.VerifyingForever` | blixard-core/src/backup_replication.rs:609-688 | a run after which a region stays `Verifying` whatever happens |
| `BackupChain.BackupManager.constructor` | blixard-core/src/backup_manager.rs:337-350 | an empty store, no last backup, index zero |
| `BackupChain.BackupManager.List` | blixard-core/src/backup_manager.rs:234-267 | every stored backup once, newest first |
| `BackupChain.BackupManager.Backup` | blixard-core/src/backup_manager.rs:423-428 | a full backup is stored under its second and becomes the last one, or nothing changes |
| `BackupChain.BackupManager.CleanupOldBackups` | blixard-core/src/backup_manager.rs:737-752 | the retention loop deletes what is listed after the kept ones, as far as storage allows |
| `BackupChain.BackupManager.AutomaticTick` | blixard-core/src/backup_manager.rs:373-405 | a full backup and then retention when the last backup is at least the minimum interval ago, otherwise nothing |
| `BackupChain.BackupManager.BackupIncrementally` | blixard-core/src/backup_manager.rs:557-642 | an incremental from the last index to the commit index, based on the first listed full backup, with every refusal |
| `BackupRuns.RetentionKeepsNewest` | blixard-core/src/backup_manager.rs:737-752 | if and only if: a complete retention pass keeps the newest full backup exactly when at least one backup is to be kept |
| `BackupRuns.NextKeepsInv` | blixard-core/src/backup_manager.rs:388-642 | every operation keeps the newest full backup stored and the chain after it a tiling of the log |
| `BackupRuns.RunKeepsInv` | blixard-core/src/backup_manager.rs:388-642 | so does every run |
| `BackupRuns.ChainTilesExactlyWhenSecondsDiffer` | blixard-core/src/backup_manager.rs:557-642 | if and only if: the stored backups after the newest full one tile its index to `last_backup_index` exactly when no two incrementals since share a second |
| `BackupRuns.SecondOverwritesFirst` | blixard-core/src/backup_manager.rs:557-642 | a run with two incrementals in one second that leaves a gap |
| `BackupRuns.SelectForRecovery` | blixard-core/src/backup_manager.rs:511-548 | the selection loop as a fold over the listing |
| `BackupRuns.SelectionIsOldest` | blixard-core/src/backup_manager.rs:511-548 | over a listing from newest to oldest, ties in any order, the base is the oldest full backup up to the target |
| `BackupRuns.SelectedAreOlder` | blixard-core/src/backup_manager.rs:511-548 | the incrementals applied include all that are older than the base and none that is newer |
| `BackupRuns.RecoversExactlyWhenAlone` | blixard-core/src/backup_manager.rs:511-548 | if and only if: recovery selects the latest full backup and exactly the incrementals after it exactly when a single full backup and no incremental precede the target |
| `BackupRuns.RecoversOlder` | blixard-core/src/backup_manager.rs:511-548 | two full backups, of which the older is selected |
| `BackupRuns.RecoversWithoutIncrement` | blixard-core/src/backup_manager.rs:511-548 | an incremental after the only full backup that is left out |
| `BackupRuns.ListingIsNewestFirst` | blixard-core/src/backup_manager.rs:234-267 | in every run a listing runs strictly from newest to oldest |
| `BackupBases.RunKeepsBases` | blixard-core/src/backup_manager.rs:388-642 | in every run no full backup lies between a stored incremental and its stored base |
| `BackupBases.KeptAreFirst` | blixard-core/src/backup_manager.rs:737-752 | a complete retention pass keeps exactly the first listed backups |
| `BackupBases.BasesKeptExactlyWhenCutAtFull` | blixard-core/src/backup_manager.rs:737-752 | if and only if: in any run a complete retention pass that deletes something leaves every incremental its base exactly when the last backup kept is a full one |
| `BackupBases.RetentionStrandsIncremental` | blixard-core/src/backup_manager.rs:737-752 | a run that keeps two backups and leaves an incremental whose base is deleted |
| `BackupInterval.LastIsLatest` | blixard-core/src/backup_manager.rs:373-642 | over every run `last_backup` is the instant of the latest operation that made a backup, if any did |
| `BackupInterval.TickActsExactlyWhenDue` | blixard-core/src/backup_manager.rs:373-405 | if and only if: over every run a tick makes a backup exactly when the store takes it and every backup made before is at least the minimum interval ago |
| `BackupInterval.NowActsExactlyWhenStored` | blixard-core/src/backup_manager.rs:423-428 | if and only if: a backup on demand is made exactly when the store takes it |
| `BackupInterval.TicksKeepInterval` | blixard-core/src/backup_manager.rs:373-405 | two backups, the later by a tick, lie at least the minimum interval apart |
| `BackupInterval.TickStoresFull` | blixard-core/src/backup_manager.rs:386-405 | a tick that acts leaves the new full backup, its index and its instant, and of the others only what was stored before |
| `AuditLog.AuditLogger.constructor` | blixard-core/src/audit_log.rs:187-221 | the day's file is opened for append, what it holds stays, and a new one is the last written |
| `AuditLog.AuditLogger.Log` | blixard-core/src/audit_log.rs:239-307 | a severe enough event appends one stamped, possibly signed line to the open file, and once that has reached its size the files are rotated and the oldest removed |
| `AuditLog.AuditLogger.RotateFiles` | blixard-core/src/audit_log.rs:324-365 | the next file is the day's, or after that the first unused sequence number, and then the oldest files are removed |
| `AuditLog.AuditLogger.CleanupOldLogs` | blixard-core/src/audit_log.rs:368-409 | the removal loop leaves the files written last, as many as are to be kept |
| `AuditLog.FreeSequence` | blixard-core/src/audit_log.rs:330-342 | the least unused sequence number |
| `AuditLog.ReadFile` | blixard-core/src/audit_log.rs:621-652 | the line loop returns the events before the first one later than the window, and says whether it met one |
| `AuditLog.QueryByTime` | blixard-core/src/audit_log.rs:598-656 | the file loop is one scan of all lines in reading order, and every event it returns was read and is asked for |
| `AuditLog.ScanAppends` | blixard-core/src/audit_log.rs:598-656 | how the early stop composes over consecutive parts |
| `AuditLog.WantedIsAskedFor` | blixard-core/src/audit_log.rs:659-688 | if and only if: the reader's tests keep exactly the events in the window with the asked category, a severity not below the asked one, and the asked texts in their event type and actor |
| `AuditRoundTrip.FindsSignature` | blixard-core/src/audit_log.rs:630-635 | after a text without the separator it is found exactly where it was put |
| `AuditRoundTrip.LineReadsBack` | blixard-core/src/audit_log.rs:239-307 | a written line reads back as the stamped event, or is lost exactly when its text contains the separator |
| `AuditRoundTrip.ReturnIsStripped` | blixard-core/src/audit_log.rs:618-625 | a line may as well end in a carriage return and a newline |
| `AuditRoundTrip.BlankIsSkipped` | blixard-core/src/audit_log.rs:626-628 | a line of nothing but white space changes nothing that is read |
| `AuditRoundTrip.FileReadsBack` | blixard-core/src/audit_log.rs:239-307 | parsing a written file gives exactly the surviving events in order |
| `AuditRoundTrip.EarlyStopIsExact` | blixard-core/src/audit_log.rs:598-656 | if and only if: the early stop returns what a full scan returns exactly when no wanted event follows one later than the window |
| `AuditRoundTrip.LoggedThenQueried` | blixard-core/src/audit_log.rs:598-688 | writing any events to any files and querying returns the surviving events that match, exactly under that condition, which chronological order implies |
| `AuditRoundTrip.RotatedIsReadFirst` | blixard-core/src/audit_log.rs:324-345 | the name of a rotated file sorts before that of the file it continues |
| `AuditRoundTrip.RotationHidesEvents` | blixard-core/src/audit_log.rs:598-656 | so a query that ends before the rotated file's first event finds nothing |
| `AuditRotation.ShortStays` | blixard-core/src/audit_log.rs:239-409 | once a file holds less than was logged to it, some file does after every further call |
| `AuditRotation.SoundStep` | blixard-core/src/audit_log.rs:239-365 | a call that deletes nothing keeps every file equal to what was logged to it, and all but the open one non-empty |
| `AuditRotation.SpillLoses` | blixard-core/src/audit_log.rs:368-409 | a rotation that leaves more files than are to be kept deletes a file that is not empty |
| `AuditRotation.RunIsSound` | blixard-core/src/audit_log.rs:239-409 | over every run: all is in its file until the first such rotation, and something is missing ever after |
| `AuditRotation.NothingLostExactlyWhenNoneSpilled` | blixard-core/src/audit_log.rs:239-409 | if and only if: over any run of any days every file holds exactly what was logged while it was current, in order, exactly when no rotation of the run leaves more files than are to be kept |
| `AuditRotation.OneFileKept` | blixard-core/src/audit_log.rs:361-409 | a run that keeps one file: its first rotation deletes the day's file and the event in it |
| `AuditRotation.RunReadsBack` | blixard-core/src/audit_log.rs:598-656 | after any run that deletes nothing, the files in the order of their names give back the surviving events of the run, each as often as it was logged |
| `AuditRotation.RunThenQueried` | blixard-core/src/audit_log.rs:598-656 | if and only if: and the query returns, up to order, exactly the matching ones among all of them exactly when in that order no wanted event comes after one later than the window |
| `AuditRotation.RunHidesEvent` | blixard-core/src/audit_log.rs:598-656 | a run of two calls after which the query for the first event returns nothing |
| `AuditOrder.NumbersInOrderExactlyBelowThousand` | blixard-core/src/audit_log.rs:324-345 | if and only if: rotated files of a day are read in the order of their numbers exactly when there are fewer than a thousand |
| `AuditOrder.RunsAreSorted` | blixard-core/src/audit_log.rs:239-409 | in every run the listed files, the open one apart, stand in the order of their last writes |
| `AuditOrder.OldestAreDeleted` | blixard-core/src/audit_log.rs:368-409 | so a call deletes only files written longer ago than every file it keeps, the one it opens apart |
| `AuditAnswers.LineReadsBackAs` | blixard-core/src/audit_log.rs:239-307 | an event severe enough is read back with the logger's node, its details if included and all else unchanged, or not at all when its text has the separator |
| `AuditAnswers.SignedLineSplits` | blixard-core/src/audit_log.rs:266-270 | a signed line is the event's text, the separator and the signature of that text |
| `AuditAnswers.QueryFinds` | blixard-core/src/audit_log.rs:598-688 | the query returns nothing but readable records of logged events that are asked for, and every one of them when the files read in order are chronological |
| `AuditCodec.EncodeIsInjective` | blixard-core/src/audit_log.rs:261-265 | events with the same text are the same, in a concrete one-line format |
| `AuditCodec.PlainCodecIsGood` | blixard-core/src/audit_log.rs:261-271 | that format has all the properties that reading back needs |
| `AuditCodec.SeparatorIsLost` | blixard-core/src/audit_log.rs:630-635 | in it every event whose id is the separator is written and never read back |
| `AuditCodec.OthersAreKept` | blixard-core/src/audit_log.rs:630-635 | and every event without the separator's first letter is read back |
| `AntiAffinity.AntiAffinityChecker.constructor` | blixard-core/src/anti_affinity.rs:131-143 | the nested loops build the index that a recount of the machines gives |
| `AntiAffinity.AntiAffinityChecker.CheckHardConstraints` | blixard-core/src/anti_affinity.rs:146-168 | accepts exactly when no hard limit is reached by recount, else names the first rule reached |
| `AntiAffinity.AntiAffinityChecker.SoftConstraintPenalty` | blixard-core/src/anti_affinity.rs:171-194 | the loop sums the weighted excess over the soft rules |
| `AntiAffinity.AntiAffinityChecker.ViolatingNodes` | blixard-core/src/anti_affinity.rs:197-211 | exactly the nodes with a member of a hard rule's group that have reached its limit |
| `AntiAffinityLimits.ListsExactlyTheRefused` | blixard-core/src/anti_affinity.rs:197-211 | if and only if: the listed nodes are the refused ones exactly when no hard limit is zero |
| `AntiAffinityLimits.ZeroLimitIsNotListed` | blixard-core/src/anti_affinity.rs:197-211 | a rule of limit zero whose refused nodes are not listed |
| `AntiAffinityLimits.RunsKeepLimit` | blixard-core/src/anti_affinity.rs:146-168 | placing only on accepted nodes keeps a group's limit over every run, whatever groups the machines list |
| `AntiAffinityLimits.LimitKeptExactlyWhenGuarded` | blixard-core/src/anti_affinity.rs:146-168 | if and only if: for machines of one group the limit is kept in every run exactly when each brings a rule that stops it |
| `AntiAffinityLimits.LimitKeptExactlyWhenNoPile` | blixard-core/src/anti_affinity.rs:146-168 | if and only if: for machines of any groups the limit is kept in every run exactly when no one more than the limit can be piled on an empty node |
| `AntiAffinityLimits.SomeNodeAccepts` | blixard-core/src/anti_affinity.rs:146-168 | with one hard rule and fewer than limit times nodes members some node accepts |
| `AntiAffinityLimits.PenaltyStep` | blixard-core/src/anti_affinity.rs:171-194 | one more member raises its node's penalty by exactly the weight of the soft rules it reaches, and no other node's |
| `AntiAffinityLimits.SchedulerGate` | blixard-core/src/vm_scheduler_modules/resource_analysis.rs:464-518 | the scheduler's gate judges node 0 by the whole cluster and every other node as empty |
| `AntiAffinityLimits.SchedulerKeepsLimitExactlyWhenBarred` | blixard-core/src/vm_scheduler_modules/placement_strategies.rs:168-196 | if and only if: placing by the scheduler's gate keeps a group's limit in every run exactly when every machine of the group brings a hard rule of limit zero |
| `AntiAffinityLimits.SchedulerBreaksLimit` | blixard-core/src/vm_scheduler_modules/resource_analysis.rs:464-518 | a run of the scheduler that puts two machines where their rule allows one |
| `TtlCache.Cache.constructor` | blixard-core/src/caching.rs:53-58 | an empty cache |
| `TtlCache.Cache.Check` | blixard-core/src/caching.rs:66-74 | a hit exactly for an entry that has not expired |
| `TtlCache.Cache.Insert` | blixard-core/src/caching.rs:76-83 | the stamped value replaces the key's entry |
| `TtlCache.Cache.GetOrCompute` | blixard-core/src/caching.rs:61-86 | a hit changes nothing, a miss stores and returns the computed value |
| `TtlCache.Cache.Invalidate` | blixard-core/src/caching.rs:89-92 | the key's entry is removed |
| `TtlCache.Cache.Clear` | blixard-core/src/caching.rs:95-98 | every entry is removed |
| `TtlCache.Cache.CleanupExpired` | blixard-core/src/caching.rs:101-104 | exactly the expired entries are removed |
| `TtlCache.AnswersAreHonest` | blixard-core/src/caching.rs:61-86 | in every interleaving each answer was computed for its key, and each hit less than the time to live ago |
| `TtlCache.ServedUntilExpiry` | blixard-core/src/caching.rs:61-86 | whatever else happens, an entry neither replaced nor invalidated is served to everyone who asks less than the time to live after its stamp, and to nobody from then on |
| `TtlCache.CleanupIsInvisible` | blixard-core/src/caching.rs:101-104 | leaving out a clean-up changes no answer, no hit and no computation of any continuation |
| `TtlCache.InvalidationIsLost` | blixard-core/src/caching.rs:61-92 | a client that computes a value, or holds an unexpired one, brings it back after the invalidation |
| `TtlCache.InvalidatedExactlyWhenNoneUnderWay` | blixard-core/src/caching.rs:61-92 | if and only if: in every reachable state, no run serves a value begun before an invalidation exactly when at that moment no client computes one and none holds an unexpired one |
| `Linearizability.OperationHistory.constructor` | blixard-core/src/linearizability.rs:74-79 | an empty history |
| `Linearizability.OperationHistory.Begin` | blixard-core/src/linearizability.rs:82-98 | an open entry with the next id and its start |
| `Linearizability.OperationHistory.Complete` | blixard-core/src/linearizability.rs:101-107 | the search loop completes the first entry with the id, with reply and end |
| `Linearizability.OperationHistory.GetCompleted` | blixard-core/src/linearizability.rs:110-118 | the completed entries in order |
| `Linearizability.CompletesFirst` | blixard-core/src/linearizability.rs:101-107 | only that entry changes, and only its reply and end |
| `Linearizability.CheckVmConsistency` | blixard-core/src/linearizability.rs:329-345 | refuses exactly when two entries record the creation of one name, and names it |
| `Linearizability.RefusedHasNoOrder` | blixard-core/src/linearizability.rs:329-345 | a refused history without deletions has no legal order from any store, even if failed calls may have worked |
| `Linearizability.CreationsExactlyChecked` | blixard-core/src/linearizability.rs:329-345 | if and only if: a history of creations is accepted exactly when some order is legal from the empty store, and then it is linearizable |
| `Linearizability.LinearizableHasOrder` | blixard-core/src/linearizability.rs:28-37 | a linearizable history has a legal order |
| `Lifecycles.LegalOrderExactlyWhenBalanced` | blixard-core/src/linearizability.rs:329-345 | if and only if: a history of creations, deletions, starts and stops has a legal order exactly when the counts of each name's calls can alternate and a name that was started or stopped was there or created |
| `Linearizability.DeletionsMislead` | blixard-core/src/linearizability.rs:329-345 | a legal history with a deletion that is refused |
| `Linearizability.StartsAreUnchecked` | blixard-core/src/linearizability.rs:329-345 | an accepted history that has no legal order |
| `Linearizability.ReadsSeeWrites` | blixard-core/src/linearizability.rs:41-65 | in a legal order an answered status or list shows what the successful creation, start, stop or deletion before it left |
| `RecordedRuns.NextKeepsInv` | blixard-core/src/linearizability.rs:82-303 | every step of the recording clients keeps entries, open calls and the store's effects in accord |
| `RecordedRuns.RecordIsExact` | blixard-core/src/linearizability.rs:82-107 | in every run ids are positions, completing touches exactly the caller's entry, each recorded reply is the store's, and entries stand in the order their calls began |
| `RecordedRuns.NoFalseAlarm` | blixard-core/src/linearizability.rs:147-345 | whatever the interleaving, the check accepts what was recorded against an atomic store |
| `RecordedRuns.QuietHistoryIsLinearizable` | blixard-core/src/linearizability.rs:147-303 | once no call is open, the recorded history is linearizable: the store's order is legal and respects real time |

## Left out

- Floating-point rounding: utilisation is compared in exact thousandths of a percent, percentages and penalties are real numbers.
- The semaphore's upper bound on permits, which a very large pool would exceed.
- Resource pools with a minimum size, validation or reset; the address pools use none of them.
- The replicator's timestamps, error texts, back-off times and audit events, which are never read back.
- Transfer and storage internals of backups; compression, encryption and the data itself.
- Restoring backups: replaying incremental changes is a stub in the source, only the selection is modelled.
- AntiAffinityLimits.LimitKeptExactlyWhenGuarded: for machines of at most one group, where the condition is one rule per machine; `AntiAffinityLimits.LimitKeptExactlyWhenNoPile` is the statement for machines of any groups.
- Compliance reports over the audit log; file sizes are counted in characters.
- Errors of single removals when old audit files are deleted, which the source only logs.
- Errors of the file system while audit files are written or read.
- Operations that only copy fields, such as `get_pools` and `list_replication_status`.
- Raft, the scheduler's scoring, quotas, transports, metrics, certificates, authorisation and configuration, which are other components.
