/** What every run of the IP pool manager keeps: its four views of who holds which address agree. */
module IpManagerSafety {
  import opened Outcomes
  import opened IpSearch
  import opened IpPool
  import opened IpManagerState

  // ---------------------------------------------------------------- the invariant

  /** The addresses whose allocation record names the pool. */
  function Held(allocations: map<IpAddr, Allocation>, id: PoolId): set<IpAddr> {
    set ip | ip in allocations && allocations[ip].poolId == id
  }

  /** A pool in good order whose sets are exactly the addresses `held`. */
  ghost predicate PoolAgrees(p: Pool, id: PoolId, held: set<IpAddr>) {
    && PoolInv(p)
    && Validated(p.resources.factory)
    && p.resources.factory.id == id
    && p.shared == held
  }

  /** Every pool's sets are the recorded addresses that name it. */
  ghost predicate PoolsAgree(m: Manager) {
    forall id :: id in m.pools ==> PoolAgrees(m.pools[id], id, Held(m.allocations, id))
  }

  ghost predicate RecordsAgree(m: Manager) {
    forall ip :: ip in m.allocations ==> m.allocations[ip].ip == ip && m.allocations[ip].poolId in m.pools
  }

  ghost predicate NoDuplicates<T>(s: seq<T>) {
    forall i, j :: 0 <= i < j < |s| ==> s[i] != s[j]
  }

  /** A VM's list holds exactly the addresses recorded for it, each once. */
  ghost predicate VmListAgrees(allocations: map<IpAddr, Allocation>, vms: map<VmId, seq<IpAddr>>, vm: VmId) {
    && NoDuplicates(VmIps(vms, vm))
    && (forall ip :: ip in VmIps(vms, vm) <==> ip in allocations && allocations[ip].vmId == vm)
    && (vm in vms ==> vms[vm] != [])
  }

  ghost predicate VmsAgree(m: Manager) {
    forall vm: VmId :: VmListAgrees(m.allocations, m.vmAllocations, vm)
  }

  /** The addresses each pool can still hand out. */
  function Reach(m: Manager): map<PoolId, set<IpAddr>> {
    map id | id in m.pools :: PoolReach(m.pools[id])
  }

  ghost predicate Apart(reach: map<PoolId, set<IpAddr>>, allocations: map<IpAddr, Allocation>) {
    && (forall a, b :: a in reach && b in reach && a != b ==> reach[a] !! reach[b])
    && (forall ip, id :: ip in allocations && id in reach && id != allocations[ip].poolId ==> ip !in reach[id])
  }

  /** No two pools can hand out the same address, and no recorded address can be handed out by a pool
      other than the one it is recorded for. Nothing in the source checks this of a configuration. */
  ghost predicate Separated(m: Manager) {
    Apart(Reach(m), m.allocations)
  }

  ghost predicate Consistent(m: Manager) {
    PoolsAgree(m) && RecordsAgree(m) && VmsAgree(m) && Separated(m)
  }

  /** What the invariant is for: an address belongs to at most one VM, the record and the list agree on
      which, and the pool that gave it out still exists and counts it. */
  lemma NoAddressHeldTwice(m: Manager, a: VmId, b: VmId, ip: IpAddr)
    requires Consistent(m) && ip in VmIps(m.vmAllocations, a) && ip in VmIps(m.vmAllocations, b)
    ensures a == b
    ensures ip in m.allocations && m.allocations[ip].vmId == a
    ensures var id := m.allocations[ip].poolId;
            && id in m.pools && ip in m.pools[id].state.allocatedIps && ip in m.pools[id].shared
            && forall other :: other in m.pools && ip in m.pools[other].shared ==> other == id
  {
    assert VmListAgrees(m.allocations, m.vmAllocations, a);
    assert VmListAgrees(m.allocations, m.vmAllocations, b);
  }

  /** While the views agree, a machine's records are one for each address of its list, in the list's order, each naming the
      machine. */
  lemma RecordsMatchList(m: Manager, vm: VmId)
    requires Consistent(m)
    ensures var ips := VmIps(m.vmAllocations, vm);
            var records := RecordsOf(m.allocations, ips);
            |records| == |ips| && forall i :: 0 <= i < |ips| ==> records[i].ip == ips[i] && records[i].vmId == vm
  {
    assert VmListAgrees(m.allocations, m.vmAllocations, vm);
    RecordedAddresses(m.allocations, VmIps(m.vmAllocations, vm));
  }

  lemma {:induction false} RecordedAddresses(allocations: map<IpAddr, Allocation>, ips: seq<IpAddr>)
    requires forall ip :: ip in ips ==> ip in allocations
    ensures |RecordsOf(allocations, ips)| == |ips|
    ensures forall i :: 0 <= i < |ips| ==> RecordsOf(allocations, ips)[i] == allocations[ips[i]]
  {
    if ips != [] {
      RecordedAddresses(allocations, ips[..|ips| - 1]);
    }
  }

  // ---------------------------------------------------------------- commands

  /** What a caller of `CreatePool` has to check: the new pool's addresses are nobody else's. */
  ghost predicate ClearOf(m: Manager, c: Config) {
    && (forall id :: id in m.pools ==> Reach(m)[id] !! PoolReach(FromState(NewState(c))))
    && (forall ip :: ip in m.allocations ==> ip !in PoolReach(FromState(NewState(c))))
  }

  lemma ApartExtended(reach: map<PoolId, set<IpAddr>>, allocations: map<IpAddr, Allocation>, id: PoolId, u: set<IpAddr>)
    requires Apart(reach, allocations) && id !in reach
    requires forall other :: other in reach ==> reach[other] !! u
    requires forall ip :: ip in allocations ==> ip !in u
    ensures Apart(reach[id := u], allocations)
  {
  }

  lemma ApartRecorded(reach: map<PoolId, set<IpAddr>>, allocations: map<IpAddr, Allocation>, a: Allocation)
    requires Apart(reach, allocations) && a.poolId in reach && a.ip in reach[a.poolId]
    ensures Apart(reach, allocations[a.ip := a])
  {
  }

  /** Replacing one pool by another with the same factory and sets keeps the invariant. */
  lemma ReconfigureKeeps(m: Manager, id: PoolId, p: Pool)
    requires Consistent(m) && id in m.pools
    requires p.resources == m.pools[id].resources && p.shared == m.pools[id].shared
    requires p.state.allocatedIps == p.shared && p.state.totalAllocated == |p.shared|
    ensures Consistent(m.(pools := m.pools[id := p]))
  {
    var n := m.(pools := m.pools[id := p]);
    SameReach(m, n, id);
    ReplacedPoolsAgree(m, n, id);
    SameVms(m, n);
  }

  lemma SameReach(m: Manager, n: Manager, id: PoolId)
    requires Separated(m) && id in m.pools && n.allocations == m.allocations && n.pools.Keys == m.pools.Keys
    requires n.pools == m.pools[id := n.pools[id]]
    requires n.pools[id].resources == m.pools[id].resources && n.pools[id].shared == m.pools[id].shared
    ensures Separated(n)
  {
    assert Reach(n) == Reach(m);
  }

  lemma ReplacedPoolsAgree(m: Manager, n: Manager, id: PoolId)
    requires PoolsAgree(m) && RecordsAgree(m) && id in m.pools && n.allocations == m.allocations && n.pools.Keys == m.pools.Keys
    requires n.pools == m.pools[id := n.pools[id]]
    requires n.pools[id].resources == m.pools[id].resources && n.pools[id].shared == m.pools[id].shared
    requires n.pools[id].state.allocatedIps == n.pools[id].shared && n.pools[id].state.totalAllocated == |n.pools[id].shared|
    ensures PoolsAgree(n) && RecordsAgree(n)
  {
    assert PoolAgrees(n.pools[id], id, Held(m.allocations, id));
  }

  lemma NewPoolAgrees(c: Config)
    requires Validated(c)
    ensures PoolAgrees(FromState(NewState(c)), c.id, {})
    ensures FromState(NewState(c)).resources.factory == c
  {
  }

  lemma SameVms(m: Manager, n: Manager)
    requires VmsAgree(m) && n.allocations == m.allocations && n.vmAllocations == m.vmAllocations
    ensures VmsAgree(n)
  {
    forall vm: VmId
      ensures VmListAgrees(n.allocations, n.vmAllocations, vm)
    {
      assert VmListAgrees(m.allocations, m.vmAllocations, vm);
    }
  }

  lemma CreateKeeps(m: Manager, c: Config)
    requires Consistent(m) && ClearOf(m, c) && Validated(c) && c.id !in m.pools
    ensures Consistent(m.(pools := m.pools[c.id := FromState(NewState(c))]))
  {
    var n := m.(pools := m.pools[c.id := FromState(NewState(c))]);
    NewPoolAgrees(c);
    NewPoolSeparated(m, n, c);
    NewPoolsAgree(m, n, c);
    SameVms(m, n);
  }

  lemma NewPoolSeparated(m: Manager, n: Manager, c: Config)
    requires Separated(m) && ClearOf(m, c) && c.id !in m.pools && n.allocations == m.allocations
    requires n.pools == m.pools[c.id := FromState(NewState(c))]
    ensures Separated(n)
  {
    var u := PoolReach(FromState(NewState(c)));
    assert Reach(n) == Reach(m)[c.id := u];
    ApartExtended(Reach(m), m.allocations, c.id, u);
  }

  lemma NewPoolsAgree(m: Manager, n: Manager, c: Config)
    requires PoolsAgree(m) && RecordsAgree(m) && c.id !in m.pools && n.allocations == m.allocations
    requires c.id in n.pools && n.pools == m.pools[c.id := n.pools[c.id]] && PoolAgrees(n.pools[c.id], c.id, {})
    ensures PoolsAgree(n) && RecordsAgree(n)
  {
    assert Held(m.allocations, c.id) == {};
  }

  lemma DeleteKeeps(m: Manager, id: PoolId)
    requires Consistent(m) && id in m.pools && m.pools[id].state.allocatedIps == {}
    ensures Consistent(m.(pools := m.pools - {id}))
  {
    var n := m.(pools := m.pools - {id});
    assert Reach(n) == Reach(m) - {id};
    ApartWithout(Reach(m), m.allocations, id);
    NoRecordDangles(m, n, id);
    SameVms(m, n);
  }

  lemma ApartWithout(reach: map<PoolId, set<IpAddr>>, allocations: map<IpAddr, Allocation>, id: PoolId)
    requires Apart(reach, allocations)
    ensures Apart(reach - {id}, allocations)
  {
  }

  lemma NoRecordDangles(m: Manager, n: Manager, id: PoolId)
    requires PoolsAgree(m) && RecordsAgree(m) && id in m.pools && m.pools[id].state.allocatedIps == {}
    requires n.pools == m.pools - {id} && n.allocations == m.allocations
    ensures PoolsAgree(n) && RecordsAgree(n)
  {
    assert PoolAgrees(m.pools[id], id, Held(m.allocations, id));
    forall ip | ip in m.allocations
      ensures m.allocations[ip].poolId in n.pools
    {
      assert m.allocations[ip].poolId == id ==> ip in Held(m.allocations, id);
    }
  }

  lemma ExecuteKeepsConsistent(m: Manager, cmd: Command)
    requires Consistent(m)
    requires cmd.CreatePool? ==> ClearOf(m, cmd.config)
    ensures Consistent(Execute(m, cmd).0)
    ensures Execute(m, cmd).1.Some? ==> Execute(m, cmd).0 == m
  {
    var n := Execute(m, cmd).0;
    if n != m {
      match cmd
      case CreatePool(c) => CreateKeeps(m, c);
      case DeletePool(id) => DeleteKeeps(m, id);
      case UpdatePool(c) => 
        assert PoolAgrees(m.pools[c.id], c.id, Held(m.allocations, c.id));
        ReconfigureKeeps(m, c.id, n.pools[c.id]);
      case _ =>
        assert PoolAgrees(m.pools[cmd.poolId], cmd.poolId, Held(m.allocations, cmd.poolId));
        ReconfigureKeeps(m, cmd.poolId, n.pools[cmd.poolId]);
    }
  }

  // ---------------------------------------------------------------- the second phase of an allocation

  /** The address a pool finds is in nobody's record. */
  lemma FoundIsUnrecorded(m: Manager, id: PoolId, ip: IpAddr)
    requires PoolsAgree(m) && RecordsAgree(m) && Separated(m) && id in m.pools && ip in Reach(m)[id] - m.pools[id].shared
    ensures ip !in m.allocations
  {
    assert PoolAgrees(m.pools[id], id, Held(m.allocations, id));
  }

  lemma HeldAfterRecord(allocations: map<IpAddr, Allocation>, a: Allocation, id: PoolId)
    requires a.ip !in allocations
    ensures Held(allocations[a.ip := a], id) == Held(allocations, id) + if id == a.poolId then {a.ip} else {}
  {
  }

  /** `n` is `m` after the pool handed out the unrecorded address of `a` and `a` was recorded. */
  ghost predicate Added(m: Manager, n: Manager, a: Allocation) {
    && a.poolId in m.pools
    && a.ip in Reach(m)[a.poolId] && a.ip !in m.allocations
    && n.allocations == m.allocations[a.ip := a]
    && n.pools.Keys == m.pools.Keys
    && (forall id :: id in m.pools && id != a.poolId ==> n.pools[id] == m.pools[id])
    && PoolInv(n.pools[a.poolId])
    && n.pools[a.poolId].shared == m.pools[a.poolId].shared + {a.ip}
    && n.pools[a.poolId].resources.factory == m.pools[a.poolId].resources.factory
    && PoolReach(n.pools[a.poolId]) == PoolReach(m.pools[a.poolId])
  }

  lemma AddKeepsPools(m: Manager, n: Manager, a: Allocation)
    requires PoolsAgree(m) && Added(m, n, a)
    ensures PoolsAgree(n)
  {
    forall id | id in n.pools
      ensures PoolAgrees(n.pools[id], id, Held(n.allocations, id))
    {
      HeldAfterRecord(m.allocations, a, id);
      GrownPoolAgrees(m.pools[id], n.pools[id], id, Held(m.allocations, id), if id == a.poolId then {a.ip} else {});
    }
  }

  lemma GrownPoolAgrees(p: Pool, q: Pool, id: PoolId, held: set<IpAddr>, more: set<IpAddr>)
    requires PoolAgrees(p, id, held) && PoolInv(q)
    requires q.resources.factory == p.resources.factory && q.shared == p.shared + more
    ensures PoolAgrees(q, id, held + more)
  {
  }

  lemma AddKeepsSeparated(m: Manager, n: Manager, a: Allocation)
    requires Separated(m) && Added(m, n, a)
    ensures Separated(n)
  {
    assert Reach(n) == Reach(m);
    ApartRecorded(Reach(m), m.allocations, a);
  }

  /** What the pool's own allocation gives. */
  lemma AllocatedAdds(m: Manager, id: PoolId, now: int)
    requires PoolsAgree(m) && RecordsAgree(m) && Separated(m) && id in m.pools && Allocate(m.pools[id], now).1.Ok?
    ensures var (p, result) := Allocate(m.pools[id], now);
            && result.value in PoolReach(m.pools[id]) && result.value in Usable(m.pools[id].resources.factory)
            && result.value !in m.allocations
            && PoolInv(p) && p.shared == m.pools[id].shared + {result.value}
            && p.resources.factory == m.pools[id].resources.factory && PoolReach(p) == PoolReach(m.pools[id])
  {
    assert PoolAgrees(m.pools[id], id, Held(m.allocations, id));
    AllocateKeepsInv(m.pools[id], now);
    AllocatedIsInReach(m.pools[id], now);
    FoundIsUnrecorded(m, id, Allocate(m.pools[id], now).1.value);
  }

  lemma CommitAdds(m: Manager, id: PoolId, r: Request, now: int)
    requires Consistent(m) && Commit(m, id, r, now).1.Ok?
    ensures var (n, result) := Commit(m, id, r, now);
            var a := result.value.allocation;
            && Added(m, n, a)
            && a.vmId == r.vmId && a.poolId == id && a.ip in Usable(m.pools[id].resources.factory)
            && n == Record(m.(pools := n.pools), a)
  {
    assert PoolAgrees(m.pools[id], id, Held(m.allocations, id));
    AllocatedAdds(m, id, now);
  }

  lemma AddKeepsConsistent(m: Manager, n: Manager, a: Allocation)
    requires Consistent(m) && Added(m, n, a) && n == Record(m.(pools := n.pools), a)
    ensures Consistent(n)
  {
    AddKeepsPools(m, n, a);
    AddKeepsSeparated(m, n, a);
    RecordKeepsVms(m, m.(pools := n.pools), a);
  }

  /** An allocation that succeeds records an address nobody held, in the VM asked for, and keeps the
      views equal; one that fails changes nothing. */
  lemma CommitKeepsConsistent(m: Manager, id: PoolId, r: Request, now: int)
    requires Consistent(m)
    ensures Consistent(Commit(m, id, r, now).0)
    ensures Commit(m, id, r, now).1.Err? ==> Commit(m, id, r, now).0 == m
    ensures Commit(m, id, r, now).1.Ok? ==>
              var a := Commit(m, id, r, now).1.value.allocation;
              && a.ip !in m.allocations
              && a.vmId == r.vmId && a.poolId == id
              && Commit(m, id, r, now).0.allocations == m.allocations[a.ip := a]
  {
    var (n, result) := Commit(m, id, r, now);
    if result.Ok? {
      CommitAdds(m, id, r, now);
      AddKeepsConsistent(m, n, result.value.allocation);
    }
  }

  /** Recording a new address keeps the VM lists exact. */
  lemma RecordKeepsVms(m: Manager, mid: Manager, a: Allocation)
    requires VmsAgree(m) && a.ip !in m.allocations
    requires mid.allocations == m.allocations && mid.vmAllocations == m.vmAllocations
    ensures VmsAgree(Record(mid, a))
  {
    var n := Record(mid, a);
    forall vm: VmId
      ensures VmListAgrees(n.allocations, n.vmAllocations, vm)
    {
      assert VmListAgrees(m.allocations, m.vmAllocations, vm);
      var before := VmIps(m.vmAllocations, vm);
      if vm == a.vmId {
        assert VmIps(n.vmAllocations, vm) == before + [a.ip];
        assert a.ip !in before;
      } else {
        assert VmIps(n.vmAllocations, vm) == before;
      }
    }
  }

  // ---------------------------------------------------------------- release

  /** In the middle of a release: the VM's list is gone and exactly `rest` is still recorded for it. */
  ghost predicate Releasing(m: Manager, vm: VmId, rest: set<IpAddr>) {
    && PoolsAgree(m) && RecordsAgree(m) && Separated(m)
    && vm !in m.vmAllocations
    && (forall other: VmId :: other != vm ==> VmListAgrees(m.allocations, m.vmAllocations, other))
    && (forall ip :: ip in rest <==> ip in m.allocations && m.allocations[ip].vmId == vm)
  }

  lemma HeldAfterRemoval(allocations: map<IpAddr, Allocation>, ip: IpAddr, id: PoolId)
    ensures Held(allocations - {ip}, id) == Held(allocations, id) - {ip}
  {
  }

  lemma ShrunkPoolAgrees(p: Pool, id: PoolId, held: set<IpAddr>, ip: IpAddr)
    requires PoolAgrees(p, id, held)
    ensures PoolAgrees(Release(p, ip), id, held - {ip})
  {
    ReleaseKeepsInv(p, ip);
  }

  lemma RemoveKeepsPools(m: Manager, ip: IpAddr)
    requires PoolsAgree(m) && RecordsAgree(m) && ip in m.allocations
    ensures var n := ReleaseOne(m, ip); PoolsAgree(n) && RecordsAgree(n)
  {
    var n := ReleaseOne(m, ip);
    forall other | other in n.pools
      ensures PoolAgrees(n.pools[other], other, Held(n.allocations, other))
    {
      HeldAfterRemoval(m.allocations, ip, other);
      assert PoolAgrees(m.pools[other], other, Held(m.allocations, other));
      if other == m.allocations[ip].poolId {
        ShrunkPoolAgrees(m.pools[other], other, Held(m.allocations, other), ip);
      } else {
        assert Held(m.allocations, other) - {ip} == Held(m.allocations, other);
      }
    }
  }

  lemma ApartNarrowed(reach: map<PoolId, set<IpAddr>>, allocations: map<IpAddr, Allocation>,
                      narrower: map<PoolId, set<IpAddr>>, fewer: map<IpAddr, Allocation>)
    requires Apart(reach, allocations) && narrower.Keys == reach.Keys && fewer.Keys <= allocations.Keys
    requires forall id :: id in reach ==> narrower[id] <= reach[id]
    requires forall ip :: ip in fewer ==> fewer[ip] == allocations[ip]
    ensures Apart(narrower, fewer)
  {
  }

  lemma RemoveKeepsSeparated(m: Manager, ip: IpAddr)
    requires Separated(m) && RecordsAgree(m) && ip in m.allocations
    ensures Separated(ReleaseOne(m, ip))
  {
    var n := ReleaseOne(m, ip);
    var id := m.allocations[ip].poolId;
    ReleaseNarrowsReach(m.pools[id], ip);
    assert Reach(n).Keys == Reach(m).Keys;
    ApartNarrowed(Reach(m), m.allocations, Reach(n), n.allocations);
  }

  lemma ReleaseOneStep(m: Manager, vm: VmId, rest: set<IpAddr>, ip: IpAddr)
    requires Releasing(m, vm, rest) && ip in rest
    ensures Releasing(ReleaseOne(m, ip), vm, rest - {ip})
    ensures ReleaseOne(m, ip).allocations == m.allocations - {ip}
  {
    var n := ReleaseOne(m, ip);
    RemoveKeepsPools(m, ip);
    RemoveKeepsSeparated(m, ip);
    forall other: VmId | other != vm
      ensures VmListAgrees(n.allocations, n.vmAllocations, other)
    {
      assert VmListAgrees(m.allocations, m.vmAllocations, other);
    }
  }

  function Elements<T>(s: seq<T>): set<T> {
    set x | x in s
  }

  lemma ElementsOfFront<T>(s: seq<T>)
    requires s != []
    ensures var front, last := s[..|s| - 1], s[|s| - 1];
            Elements(s) == Elements(front) + {last} && (NoDuplicates(s) ==> NoDuplicates(front) && last !in Elements(front))
  {
    assert s == s[..|s| - 1] + [s[|s| - 1]];
  }

  lemma {:induction false} ReleaseEachStep(m: Manager, vm: VmId, all: set<IpAddr>, ips: seq<IpAddr>)
    requires Releasing(m, vm, all) && NoDuplicates(ips) && Elements(ips) <= all
    ensures Releasing(ReleaseEach(m, ips), vm, all - Elements(ips))
  {
    if ips == [] {
      assert all - Elements(ips) == all;
    } else {
      var front, last := ips[..|ips| - 1], ips[|ips| - 1];
      ElementsOfFront(ips);
      ReleaseEachStep(m, vm, all, front);
      ReleaseOneStep(ReleaseEach(m, front), vm, all - Elements(front), last);
      assert all - Elements(front) - {last} == all - Elements(ips);
    }
  }

  lemma {:induction false} ReleaseEachRemoves(m: Manager, ips: seq<IpAddr>)
    ensures ReleaseEach(m, ips).allocations == m.allocations - Elements(ips)
    ensures ReleaseEach(m, ips).vmAllocations == m.vmAllocations
    ensures ReleaseEach(m, ips).roundRobin == m.roundRobin
  {
    if ips != [] {
      ElementsOfFront(ips);
      ReleaseEachRemoves(m, ips[..|ips| - 1]);
    }
  }

  lemma {:induction false} ReleaseEachLeaves(m: Manager, ips: seq<IpAddr>)
    ensures ReleaseEach(m, ips).roundRobin == m.roundRobin && ReleaseEach(m, ips).pools.Keys == m.pools.Keys
    ensures forall id :: id in m.pools ==>
              ReleaseEach(m, ips).pools[id].state.config == m.pools[id].state.config
              && ReleaseEach(m, ips).pools[id].resources == m.pools[id].resources
  {
    if ips != [] {
      ReleaseEachLeaves(m, ips[..|ips| - 1]);
    }
  }

  lemma ReleaseBegins(m: Manager, vm: VmId)
    requires Consistent(m) && vm in m.vmAllocations
    ensures NoDuplicates(m.vmAllocations[vm])
    ensures Releasing(m.(vmAllocations := m.vmAllocations - {vm}), vm, Elements(m.vmAllocations[vm]))
  {
    var mid := m.(vmAllocations := m.vmAllocations - {vm});
    assert VmListAgrees(m.allocations, m.vmAllocations, vm);
    assert Reach(mid) == Reach(m);
    forall other: VmId | other != vm
      ensures VmListAgrees(mid.allocations, mid.vmAllocations, other)
    {
      assert VmListAgrees(m.allocations, m.vmAllocations, other);
    }
  }

  lemma ReleaseEnds(m: Manager, vm: VmId)
    requires Releasing(m, vm, {})
    ensures Consistent(m)
  {
    assert VmListAgrees(m.allocations, m.vmAllocations, vm);
  }

  /** A release leaves the pools' configurations, their permits and the selection counter alone. */
  lemma ReleaseLeavesRest(m: Manager, vm: VmId)
    ensures ReleaseVm(m, vm).roundRobin == m.roundRobin && ReleaseVm(m, vm).pools.Keys == m.pools.Keys
    ensures forall id :: id in m.pools ==>
              ReleaseVm(m, vm).pools[id].state.config == m.pools[id].state.config
              && ReleaseVm(m, vm).pools[id].resources == m.pools[id].resources
  {
    if vm in m.vmAllocations {
      ReleaseEachLeaves(m.(vmAllocations := m.vmAllocations - {vm}), m.vmAllocations[vm]);
    }
  }

  /** A release removes every record of the VM and nothing else, and keeps the views equal. */
  lemma ReleaseKeepsConsistent(m: Manager, vm: VmId)
    requires Consistent(m)
    ensures Consistent(ReleaseVm(m, vm))
    ensures ReleaseVm(m, vm).vmAllocations == m.vmAllocations - {vm}
    ensures ReleaseVm(m, vm).allocations == map ip | ip in m.allocations && m.allocations[ip].vmId != vm :: m.allocations[ip]
  {
    assert VmListAgrees(m.allocations, m.vmAllocations, vm);
    if vm in m.vmAllocations {
      ReleasedIsConsistent(m, vm);
      ReleaseEachRemoves(m.(vmAllocations := m.vmAllocations - {vm}), m.vmAllocations[vm]);
    }
  }

  lemma ReleasedIsConsistent(m: Manager, vm: VmId)
    requires Consistent(m) && vm in m.vmAllocations
    ensures Consistent(ReleaseVm(m, vm))
  {
    var mid, ips := m.(vmAllocations := m.vmAllocations - {vm}), m.vmAllocations[vm];
    ReleaseBegins(m, vm);
    ReleaseEachStep(mid, vm, Elements(ips), ips);
    assert Elements(ips) - Elements(ips) == {};
    ReleaseEnds(ReleaseVm(m, vm), vm);
  }
}
