/** The manager object (`ip_pool_manager.rs`): every method has the effect of its operation on values. */
module IpPoolManager {
  import opened Outcomes
  import opened IpSearch
  import opened IpPool
  import opened IpManagerState

  datatype PoolStats = PoolStats(
    poolId: PoolId, totalIps: nat, allocatedIps: nat, reservedIps: nat, availableIps: nat, utilization: real,
    lastAllocation: Option<int>)

  class Manager {
    var pools: map<PoolId, EnhancedIpPoolState>
    var allocations: map<IpAddr, Allocation>
    var vmAllocations: map<VmId, seq<IpAddr>>
    var roundRobinCounter: nat

    /** The map owns its pools: no object is filed under two ids. */
    ghost predicate Valid()
      reads this
    {
      forall a, b :: a in pools && b in pools && pools[a] == pools[b] ==> a == b
    }

    ghost function View(): IpManagerState.Manager
      reads this, pools.Values
    {
      IpManagerState.Manager(map id | id in pools :: pools[id].View(), allocations, vmAllocations, roundRobinCounter)
    }

    constructor ()
      ensures Valid() && View() == Empty()
    {
      pools, allocations, vmAllocations, roundRobinCounter := map[], map[], map[], 0;
    }

    method CreatePool(config: Config) returns (r: Option<Error>)
      requires Valid()
      modifies this`pools
      ensures Valid() && (View(), r) == Execute(old(View()), Command.CreatePool(config))
      ensures fresh(pools.Values - old(pools.Values))
    {
      r := Validate(config);
      if r.Some? {
        return;
      }
      if config.id in pools {
        return Some(AlreadyExists);
      }
      var enhanced := new EnhancedIpPoolState(NewState(config));
      pools := pools[config.id := enhanced];
      assert View().pools == old(View()).pools[config.id := FromState(NewState(config))];
    }

    method UpdatePool(config: Config) returns (r: Option<Error>)
      requires Valid()
      modifies pools.Values
      ensures Valid() && (View(), r) == Execute(old(View()), Command.UpdatePool(config))
    {
      r := Validate(config);
      if r.Some? {
        return;
      }
      if config.id !in pools {
        return Some(NotFound);
      }
      var enhanced := pools[config.id];
      enhanced.state := enhanced.state.(config := config);
      enhanced.SyncState();
      assert View().pools == old(View()).pools[config.id := Sync(SetConfig(old(View()).pools[config.id], config))];
    }

    method DeletePool(id: PoolId) returns (r: Option<Error>)
      requires Valid()
      modifies this`pools
      ensures Valid() && (View(), r) == Execute(old(View()), Command.DeletePool(id))
    {
      if id !in pools {
        return Some(NotFound);
      }
      if pools[id].state.allocatedIps != {} {
        return Some(InvalidOperation);
      }
      pools := pools - {id};
      r := None;
      assert View().pools == old(View()).pools - {id};
    }

    /** Replaces the configuration a pool's state shows; the factory keeps its own copy. */
    method Reconfigure(id: PoolId, config: Config)
      requires Valid() && id in pools
      modifies pools[id]
      ensures Valid()
      ensures View() == old(View()).(pools := old(View()).pools[id := SetConfig(old(View()).pools[id], config)])
    {
      pools[id].state := pools[id].state.(config := config);
    }

    method SetPoolEnabled(id: PoolId, enabled: bool) returns (r: Option<Error>)
      requires Valid()
      modifies pools.Values
      ensures Valid() && (View(), r) == Execute(old(View()), Command.SetPoolEnabled(id, enabled))
    {
      if id !in pools {
        return Some(NotFound);
      }
      Reconfigure(id, pools[id].state.config.(enabled := enabled));
      r := None;
    }

    method ReserveIps(id: PoolId, ips: set<IpAddr>) returns (r: Option<Error>)
      requires Valid()
      modifies pools.Values
      ensures Valid() && (View(), r) == Execute(old(View()), Command.ReserveIps(id, ips))
    {
      if id !in pools {
        return Some(NotFound);
      }
      var state := pools[id].state;
      if exists ip :: ip in ips && (!state.config.subnet.Contains(ip) || ip in state.allocatedIps) {
        return Some(InvalidOperation);
      }
      Reconfigure(id, state.config.(reservedIps := state.config.reservedIps + ips));
      r := None;
    }

    method ReleaseReservedIps(id: PoolId, ips: set<IpAddr>) returns (r: Option<Error>)
      requires Valid()
      modifies pools.Values
      ensures Valid() && (View(), r) == Execute(old(View()), Command.ReleaseReservedIps(id, ips))
    {
      if id !in pools {
        return Some(NotFound);
      }
      var config := pools[id].state.config;
      Reconfigure(id, config.(reservedIps := config.reservedIps - ips));
      r := None;
    }

    /** The inner loop of `load_from_storage`: the state of one pool with its stored allocations marked. */
    static method MarkAllocated(config: Config, stored: seq<Allocation>) returns (s: PoolState)
      ensures FromState(s) == LoadedPool(config, stored)
    {
      s := NewState(config);
      for i := 0 to |stored|
        invariant s == NewState(config).(allocatedIps := Addresses(Naming(stored[..i], config.id)),
                                         totalAllocated := |Naming(stored[..i], config.id)|)
      {
        assert stored[..i + 1][..i] == stored[..i];
        if stored[i].poolId == config.id {
          assert Addresses(Naming(stored[..i + 1], config.id)) == Addresses(Naming(stored[..i], config.id)) + {stored[i].ip};
          s := s.(allocatedIps := s.allocatedIps + {stored[i].ip}, totalAllocated := s.totalAllocated + 1);
        }
      }
      assert stored[..|stored|] == stored;
    }

    method InsertLoaded(config: Config, stored: seq<Allocation>)
      requires Valid()
      modifies this`pools
      ensures Valid() && fresh(pools.Values - old(pools.Values))
      ensures View() == old(View()).(pools := old(View()).pools[config.id := LoadedPool(config, stored)])
    {
      var state := MarkAllocated(config, stored);
      var enhanced := new EnhancedIpPoolState(state);
      pools := pools[config.id := enhanced];
      assert View().pools == old(View()).pools[config.id := LoadedPool(config, stored)];
    }

    method LoadPoolConfigs(configs: seq<Config>, stored: seq<Allocation>) returns (r: Option<Error>)
      requires Valid()
      modifies this`pools
      ensures Valid() && (View(), r) == LoadPools(old(View()), configs, stored)
    {
      var i := 0;
      while i < |configs|
        invariant 0 <= i <= |configs|
        invariant Valid() && fresh(pools.Values - old(pools.Values))
        invariant (View(), None) == LoadPools(old(View()), configs[..i], stored)
      {
        assert configs[..i + 1][..i] == configs[..i];
        r := Validate(configs[i]);
        if r.Some? {
          StoppedAt(old(View()), configs, i + 1, stored);
          return;
        }
        InsertLoaded(configs[i], stored);
        i := i + 1;
      }
      assert configs[..i] == configs;
      r := None;
    }

    method RecordAllocation(a: Allocation)
      modifies this`allocations, this`vmAllocations
      ensures View() == Record(old(View()), a)
    {
      allocations := allocations[a.ip := a];
      vmAllocations := vmAllocations[a.vmId := VmIps(vmAllocations, a.vmId) + [a.ip]];
    }

    method LoadFromStorage(configs: seq<Config>, stored: seq<Allocation>) returns (r: Option<Error>)
      requires Valid()
      modifies this
      ensures Valid() && (View(), r) == Load(old(View()), configs, stored)
    {
      r := LoadPoolConfigs(configs, stored);
      if r.Some? {
        return;
      }
      ghost var loaded := View();
      for i := 0 to |stored|
        invariant Valid() && View() == RecordAll(loaded, stored[..i])
      {
        assert stored[..i + 1][..i] == stored[..i];
        RecordAllocation(stored[i]);
      }
      assert stored[..|stored|] == stored;
    }

    method FilterEligible(order: seq<PoolId>, request: Request) returns (eligible: seq<PoolId>)
      requires forall id :: id in order ==> id in pools
      ensures eligible == EligiblePools(View().pools, order, request)
    {
      eligible := [];
      for i := 0 to |order|
        invariant eligible == EligiblePools(View().pools, order[..i], request)
      {
        assert order[..i + 1][..i] == order[..i];
        if Eligible(pools[order[i]].View(), request) {
          eligible := eligible + [order[i]];
        }
      }
      assert order[..|order|] == order;
    }

    /** `select_pool`: filter in iteration order, then apply the strategy. */
    method SelectPool(order: seq<PoolId>, request: Request, dice: nat) returns (r: Result<PoolId, Error>)
      requires Valid() && forall id :: id in order ==> id in pools
      requires request.preferredPool == None
      modifies this`roundRobinCounter
      ensures View() == old(View()).(roundRobin := roundRobinCounter)
      ensures (r, roundRobinCounter) == Choose(old(View()), order, request, dice)
    {
      var eligible := FilterEligible(order, request);
      if eligible == [] {
        return Err(ResourceExhausted);
      }
      var id := ApplyStrategy(eligible, request, dice);
      r := Ok(id);
    }

    method ApplyStrategy(eligible: seq<PoolId>, request: Request, dice: nat) returns (r: PoolId)
      requires Valid() && eligible != [] && forall id :: id in eligible ==> id in pools
      modifies this`roundRobinCounter
      ensures View() == old(View()).(roundRobin := roundRobinCounter)
      ensures (r, roundRobinCounter) == Pick(old(View()).pools, eligible, request, old(roundRobinCounter), dice)
    {
      match request.strategy
      case LeastUtilized =>
        r := FindLeastUsed(eligible);
      case MostUtilized =>
        r := FindMostUsed(eligible);
      case RoundRobin =>
        var index := roundRobinCounter % |eligible|;
        roundRobinCounter := (roundRobinCounter + 1) % |eligible|;
        r := eligible[index];
      case TopologyAware =>
        r := PreferHinted(eligible, request.topologyHint);
      case Random =>
        r := eligible[dice % |eligible|];
    }

    method PreferHinted(eligible: seq<PoolId>, hint: Option<string>) returns (r: PoolId)
      requires eligible != [] && forall id :: id in eligible ==> id in pools
      ensures var hinted := if hint.Some? then FirstWithHint(View().pools, eligible, hint) else None;
              r == if hinted.Some? then hinted.value else LeastUsed(Usage(View().pools), eligible)
    {
      if hint.Some? {
        var hinted := FindHinted(eligible, hint);
        if hinted.Some? {
          return hinted.value;
        }
      }
      r := FindLeastUsed(eligible);
    }

    /** The loop that asks every eligible pool for its utilisation. */
    method CollectUsage(eligible: seq<PoolId>) returns (keys: seq<nat>)
      requires forall id :: id in eligible ==> id in pools
      ensures |keys| == |eligible| && forall i :: 0 <= i < |keys| ==> keys[i] == Usage(View().pools)[eligible[i]]
    {
      keys := [];
      for i := 0 to |eligible|
        invariant |keys| == i && forall k :: 0 <= k < i ==> keys[k] == Usage(View().pools)[eligible[k]]
      {
        var key := UsageOf(eligible[i]);
        keys := keys + [key];
      }
    }

    method UsageOf(id: PoolId) returns (key: nat)
      requires id in pools
      ensures key == Usage(View().pools)[id]
    {
      key := UtilizationKey(pools[id].View());
    }

    static method MinByKey(eligible: seq<PoolId>, keys: seq<nat>, ghost usage: map<PoolId, nat>) returns (best: PoolId)
      requires eligible != [] && |keys| == |eligible|
      requires forall i :: 0 <= i < |eligible| ==> eligible[i] in usage && usage[eligible[i]] == keys[i]
      ensures best == LeastUsed(usage, eligible)
    {
      best := eligible[0];
      var key := keys[0];
      assert eligible[..1] == [eligible[0]];
      for i := 1 to |eligible|
        invariant best in usage && key == usage[best] && best == LeastUsed(usage, eligible[..i])
      {
        LeastUsedStep(usage, eligible, i);
        if keys[i] < key {
          best, key := eligible[i], keys[i];
        }
      }
      assert eligible[..|eligible|] == eligible;
    }

    static method MaxByKey(eligible: seq<PoolId>, keys: seq<nat>, ghost usage: map<PoolId, nat>) returns (best: PoolId)
      requires eligible != [] && |keys| == |eligible|
      requires forall i :: 0 <= i < |eligible| ==> eligible[i] in usage && usage[eligible[i]] == keys[i]
      ensures best == MostUsed(usage, eligible)
    {
      best := eligible[0];
      var key := keys[0];
      assert eligible[..1] == [eligible[0]];
      for i := 1 to |eligible|
        invariant best in usage && key == usage[best] && best == MostUsed(usage, eligible[..i])
      {
        MostUsedStep(usage, eligible, i);
        if keys[i] >= key {
          best, key := eligible[i], keys[i];
        }
      }
      assert eligible[..|eligible|] == eligible;
    }

    method FindLeastUsed(eligible: seq<PoolId>) returns (best: PoolId)
      requires eligible != [] && forall id :: id in eligible ==> id in pools
      ensures best == LeastUsed(Usage(View().pools), eligible)
    {
      var keys := CollectUsage(eligible);
      best := MinByKey(eligible, keys, Usage(View().pools));
    }

    method FindMostUsed(eligible: seq<PoolId>) returns (best: PoolId)
      requires eligible != [] && forall id :: id in eligible ==> id in pools
      ensures best == MostUsed(Usage(View().pools), eligible)
    {
      var keys := CollectUsage(eligible);
      best := MaxByKey(eligible, keys, Usage(View().pools));
    }

    method FindHinted(eligible: seq<PoolId>, hint: Option<string>) returns (r: Option<PoolId>)
      requires forall id :: id in eligible ==> id in pools
      ensures r == FirstWithHint(View().pools, eligible, hint)
    {
      var i := 0;
      while i < |eligible|
        invariant 0 <= i <= |eligible|
        invariant FirstWithHint(View().pools, eligible, hint) == FirstWithHint(View().pools, eligible[i..], hint)
      {
        if pools[eligible[i]].state.config.topologyHint == hint {
          return Some(eligible[i]);
        }
        i := i + 1;
      }
      r := None;
    }

    /** The first phase of `allocate_ip`. */
    method ChoosePool(order: seq<PoolId>, request: Request, dice: nat) returns (r: Result<PoolId, Error>)
      requires Valid() && forall id :: id in order ==> id in pools
      modifies this`roundRobinCounter
      ensures View() == old(View()).(roundRobin := roundRobinCounter)
      ensures (r, roundRobinCounter) == Choose(old(View()), order, request, dice)
    {
      if request.preferredPool.Some? {
        var id := request.preferredPool.value;
        if id !in pools {
          return Err(NotFound);
        }
        if !HasCapacity(pools[id].View()) {
          return Err(ResourceExhausted);
        }
        return Ok(id);
      }
      r := SelectPool(order, request, dice);
    }

    /** The second phase of `allocate_ip`. */
    method CommitAllocation(id: PoolId, request: Request, now: int) returns (r: Result<Grant, Error>)
      requires Valid()
      modifies this`allocations, this`vmAllocations, pools.Values
      ensures Valid() && (View(), r) == Commit(old(View()), id, request, now)
    {
      if id !in pools {
        return Err(NotFound);
      }
      var enhanced := pools[id];
      ghost var m := View();
      var found := enhanced.AllocateIp(now);
      assert View() == m.(pools := m.pools[id := Allocate(m.pools[id], now).0]);
      if found.Err? {
        assert View().pools == m.pools;
        return Err(found.error);
      }
      var a := Allocation(found.value, id, request.vmId, request.macAddress, now, None);
      RecordAllocation(a);
      var c := enhanced.state.config;
      r := Ok(Grant(a, NetworkConfig(a.ip, c.subnet, c.gateway, c.dnsServers, c.vlanId, a.macAddress)));
    }

    method ReleaseVmIps(vm: VmId)
      requires Valid()
      modifies this`allocations, this`vmAllocations, pools.Values
      ensures Valid() && View() == ReleaseVm(old(View()), vm)
    {
      if vm !in vmAllocations {
        return;
      }
      var ips := vmAllocations[vm];
      vmAllocations := vmAllocations - {vm};
      ghost var m := View();
      assert m == old(View()).(vmAllocations := vmAllocations);
      for i := 0 to |ips|
        invariant Valid() && View() == ReleaseEach(m, ips[..i])
      {
        assert ips[..i + 1][..i] == ips[..i];
        ReleaseAddress(ips[i]);
      }
      assert ips[..|ips|] == ips;
    }

    method ReleaseAddress(ip: IpAddr)
      requires Valid()
      modifies this`allocations, pools.Values
      ensures Valid() && View() == ReleaseOne(old(View()), ip)
    {
      if ip in allocations {
        var id := allocations[ip].poolId;
        allocations := allocations - {ip};
        if id in pools {
          pools[id].ReleaseIp(ip);
        }
      }
    }

    /** `get_vm_allocations`: the records of a VM's addresses, in list order. */
    method GetVmAllocations(vm: VmId) returns (records: seq<Allocation>)
      ensures records == RecordsOf(allocations, VmIps(vmAllocations, vm))
    {
      records := [];
      var ips := VmIps(vmAllocations, vm);
      for i := 0 to |ips|
        invariant records == RecordsOf(allocations, ips[..i])
      {
        assert ips[..i + 1][..i] == ips[..i];
        if ips[i] in allocations {
          records := records + [allocations[ips[i]]];
        }
      }
      assert ips[..|ips|] == ips;
    }

    /** `get_pool_stats`; the available count is a 64-bit subtraction. */
    method GetPoolStats(id: PoolId) returns (r: Result<PoolStats, Error>)
      ensures id !in pools <==> r == Err(NotFound)
      ensures r.Ok? ==>
                var p := View().pools[id];
                var total, out := TotalCapacity(p.state.config), |p.state.allocatedIps|;
                && r.value.poolId == id && r.value.totalIps == total && r.value.lastAllocation == p.state.lastAllocation
                && r.value.allocatedIps == out
                && r.value.reservedIps == |p.state.config.reservedIps|
                && (out <= total < TWO_64 ==> r.value.availableIps + out == total)
                && (total < out <= TWO_64 ==> r.value.availableIps + out == total + TWO_64)
                && r.value.utilization == Utilization(p)
    {
      if id !in pools {
        return Err(NotFound);
      }
      var s := pools[id].state;
      var total := TotalCapacity(s.config);
      r := Ok(PoolStats(id, total, |s.allocatedIps|, |s.config.reservedIps|, Difference(total, |s.allocatedIps|),
                        Utilization(pools[id].View()), s.lastAllocation));
    }
  }

  /** A 64-bit subtraction. */
  function Difference(a: nat, b: nat): (d: nat)
    ensures b <= a < TWO_64 ==> d + b == a
    ensures a < b <= TWO_64 ==> d + b == a + TWO_64
  {
    (a - b) % TWO_64
  }

  lemma {:induction false} StoppedAt(m: IpManagerState.Manager, configs: seq<Config>, k: nat, stored: seq<Allocation>)
    requires k <= |configs| && LoadPools(m, configs[..k], stored).1.Some?
    ensures LoadPools(m, configs, stored) == LoadPools(m, configs[..k], stored)
    decreases |configs|
  {
    if k == |configs| {
      assert configs[..k] == configs;
    } else {
      assert configs[..|configs| - 1][..k] == configs[..k];
      StoppedAt(m, configs[..|configs| - 1], k, stored);
    }
  }
}
