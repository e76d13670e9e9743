/** The IP pool manager's state and operations as values: pool commands, pool selection, the second
    phase of an allocation, and release (`ip_pool_manager.rs`). */
module IpManagerState {
  import opened Outcomes
  import opened IpSearch
  import opened IpPool

  type VmId = nat

  datatype Allocation = Allocation(
    ip: IpAddr, poolId: PoolId, vmId: VmId, macAddress: string, allocatedAt: int, expiresAt: Option<int>)

  datatype Strategy = LeastUtilized | MostUtilized | RoundRobin | TopologyAware | Random

  datatype Request = Request(
    vmId: VmId, preferredPool: Option<PoolId>, requiredTags: map<string, string>,
    topologyHint: Option<string>, strategy: Strategy, macAddress: string)

  datatype NetworkConfig = NetworkConfig(
    ipAddress: IpAddr, subnet: IpNet, gateway: IpAddr, dnsServers: seq<IpAddr>, vlanId: Option<nat>,
    macAddress: string)

  datatype Grant = Grant(allocation: Allocation, network: NetworkConfig)

  datatype Command =
    | CreatePool(config: Config)
    | UpdatePool(config: Config)
    | DeletePool(poolId: PoolId)
    | SetPoolEnabled(poolId: PoolId, enabled: bool)
    | ReserveIps(poolId: PoolId, ips: set<IpAddr>)
    | ReleaseReservedIps(poolId: PoolId, ips: set<IpAddr>)

  /** The four views: each pool's own sets, the address map, the VM map; and the selection counter. */
  datatype Manager = Manager(
    pools: map<PoolId, Pool>, allocations: map<IpAddr, Allocation>, vmAllocations: map<VmId, seq<IpAddr>>,
    roundRobin: nat)

  // ---------------------------------------------------------------- pool commands

  function SetConfig(p: Pool, c: Config): Pool {
    p.(state := p.state.(config := c))
  }

  function Execute(m: Manager, cmd: Command): (Manager, Option<Error>) {
    match cmd
    case CreatePool(c) =>
      if Validate(c).Some? then (m, Validate(c))
      else if c.id in m.pools then (m, Some(AlreadyExists))
      else (m.(pools := m.pools[c.id := FromState(NewState(c))]), None)
    case UpdatePool(c) =>
      if Validate(c).Some? then (m, Validate(c))
      else if c.id !in m.pools then (m, Some(NotFound))
      else (m.(pools := m.pools[c.id := Sync(SetConfig(m.pools[c.id], c))]), None)
    case DeletePool(id) =>
      if id !in m.pools then (m, Some(NotFound))
      else if m.pools[id].state.allocatedIps != {} then (m, Some(InvalidOperation))
      else (m.(pools := m.pools - {id}), None)
    case SetPoolEnabled(id, on) =>
      if id !in m.pools then (m, Some(NotFound))
      else (m.(pools := m.pools[id := SetConfig(m.pools[id], m.pools[id].state.config.(enabled := on))]), None)
    case ReserveIps(id, ips) =>
      if id !in m.pools then (m, Some(NotFound))
      else
        var p := m.pools[id];
        if exists ip :: ip in ips && (!p.state.config.subnet.Contains(ip) || ip in p.state.allocatedIps) then
          (m, Some(InvalidOperation))
        else
          var c := p.state.config.(reservedIps := p.state.config.reservedIps + ips);
          (m.(pools := m.pools[id := SetConfig(p, c)]), None)
    case ReleaseReservedIps(id, ips) =>
      if id !in m.pools then (m, Some(NotFound))
      else
        var p := m.pools[id];
        var c := p.state.config.(reservedIps := p.state.config.reservedIps - ips);
        (m.(pools := m.pools[id := SetConfig(p, c)]), None)
  }

  // ---------------------------------------------------------------- loading

  function Naming(allocations: seq<Allocation>, id: PoolId): seq<Allocation> {
    if allocations == [] then []
    else
      var last := allocations[|allocations| - 1];
      Naming(allocations[..|allocations| - 1], id) + if last.poolId == id then [last] else []
  }

  function Addresses(allocations: seq<Allocation>): set<IpAddr> {
    set a | a in allocations :: a.ip
  }

  function LoadedPool(c: Config, allocations: seq<Allocation>): Pool {
    var mine := Naming(allocations, c.id);
    FromState(NewState(c).(allocatedIps := Addresses(mine), totalAllocated := |mine|))
  }

  /** Pools are inserted one by one; the first invalid configuration stops the load where it is. */
  function LoadPools(m: Manager, configs: seq<Config>, allocations: seq<Allocation>): (Manager, Option<Error>) {
    if configs == [] then (m, None)
    else
      var (before, error) := LoadPools(m, configs[..|configs| - 1], allocations);
      var c := configs[|configs| - 1];
      if error.Some? then (before, error)
      else if Validate(c).Some? then (before, Validate(c))
      else (before.(pools := before.pools[c.id := LoadedPool(c, allocations)]), None)
  }

  function VmIps(vms: map<VmId, seq<IpAddr>>, vm: VmId): seq<IpAddr> {
    if vm in vms then vms[vm] else []
  }

  function Record(m: Manager, a: Allocation): Manager {
    m.(allocations := m.allocations[a.ip := a],
       vmAllocations := m.vmAllocations[a.vmId := VmIps(m.vmAllocations, a.vmId) + [a.ip]])
  }

  function RecordAll(m: Manager, allocations: seq<Allocation>): Manager {
    if allocations == [] then m
    else Record(RecordAll(m, allocations[..|allocations| - 1]), allocations[|allocations| - 1])
  }

  function Load(m: Manager, configs: seq<Config>, allocations: seq<Allocation>): (Manager, Option<Error>) {
    var (loaded, error) := LoadPools(m, configs, allocations);
    if error.Some? then (loaded, error) else (RecordAll(loaded, allocations), None)
  }

  function Empty(): Manager {
    Manager(map[], map[], map[], 0)
  }

  // ---------------------------------------------------------------- first phase: choosing a pool

  predicate TagsMatch(required: map<string, string>, tags: map<string, string>) {
    forall k :: k in required ==> k in tags && tags[k] == required[k]
  }

  predicate Eligible(p: Pool, r: Request) {
    && p.state.config.enabled
    && TagsMatch(r.requiredTags, p.state.config.tags)
    && (r.topologyHint.Some? && p.state.config.topologyHint.Some? ==> r.topologyHint == p.state.config.topologyHint)
    && HasCapacity(p)
  }

  /** The eligible pools, in the order in which the map is iterated. */
  function EligiblePools(pools: map<PoolId, Pool>, order: seq<PoolId>, r: Request): (e: seq<PoolId>)
    requires forall id :: id in order ==> id in pools
    ensures forall id :: id in e <==> id in order && Eligible(pools[id], r)
  {
    if order == [] then []
    else
      var last := order[|order| - 1];
      EligiblePools(pools, order[..|order| - 1], r) + if Eligible(pools[last], r) then [last] else []
  }

  /** The utilisation of every pool, as pool selection compares it. */
  function Usage(pools: map<PoolId, Pool>): map<PoolId, nat> {
    map id | id in pools :: UtilizationKey(pools[id])
  }

  /** `min_by_key`: the first of the pools with the least utilisation. */
  function LeastUsed(usage: map<PoolId, nat>, e: seq<PoolId>): (id: PoolId)
    requires e != [] && forall id :: id in e ==> id in usage
    ensures id in e
    ensures forall other :: other in e ==> usage[id] <= usage[other]
  {
    var last := e[|e| - 1];
    if |e| == 1 then last
    else
      var best := LeastUsed(usage, e[..|e| - 1]);
      assert e == e[..|e| - 1] + [last];
      if usage[last] < usage[best] then last else best
  }

  /** `max_by_key`: the last of the pools with the greatest utilisation. */
  function MostUsed(usage: map<PoolId, nat>, e: seq<PoolId>): (id: PoolId)
    requires e != [] && forall id :: id in e ==> id in usage
    ensures id in e
    ensures forall other :: other in e ==> usage[id] >= usage[other]
  {
    var last := e[|e| - 1];
    if |e| == 1 then last
    else
      var best := MostUsed(usage, e[..|e| - 1]);
      assert e == e[..|e| - 1] + [last];
      if usage[last] >= usage[best] then last else best
  }

  lemma LeastUsedStep(usage: map<PoolId, nat>, e: seq<PoolId>, i: nat)
    requires 1 <= i < |e| && forall k :: 0 <= k < |e| ==> e[k] in usage
    ensures var best := LeastUsed(usage, e[..i]);
            best in usage && LeastUsed(usage, e[..i + 1]) == if usage[e[i]] < usage[best] then e[i] else best
  {
    assert e[..i + 1][..i] == e[..i];
  }

  lemma MostUsedStep(usage: map<PoolId, nat>, e: seq<PoolId>, i: nat)
    requires 1 <= i < |e| && forall k :: 0 <= k < |e| ==> e[k] in usage
    ensures var best := MostUsed(usage, e[..i]);
            best in usage && MostUsed(usage, e[..i + 1]) == if usage[e[i]] >= usage[best] then e[i] else best
  {
    assert e[..i + 1][..i] == e[..i];
  }

  /** A machine's records, in the order of its list. */
  function RecordsOf(allocations: map<IpAddr, Allocation>, ips: seq<IpAddr>): seq<Allocation> {
    if ips == [] then []
    else
      var ip := ips[|ips| - 1];
      RecordsOf(allocations, ips[..|ips| - 1]) + if ip in allocations then [allocations[ip]] else []
  }

  function FirstWithHint(pools: map<PoolId, Pool>, e: seq<PoolId>, hint: Option<string>): (r: Option<PoolId>)
    requires forall id :: id in e ==> id in pools
    ensures r.Some? ==> r.value in e && pools[r.value].state.config.topologyHint == hint
    ensures r == None ==> forall id :: id in e ==> pools[id].state.config.topologyHint != hint
  {
    if e == [] then None
    else if pools[e[0]].state.config.topologyHint == hint then Some(e[0])
    else FirstWithHint(pools, e[1..], hint)
  }

  function RoundRobinPick(e: seq<PoolId>, counter: nat): (PoolId, nat)
    requires e != []
  {
    (e[counter % |e|], (counter + 1) % |e|)
  }

  /** The strategy's choice among the eligible pools; `dice` stands for the random generator. */
  function Pick(pools: map<PoolId, Pool>, e: seq<PoolId>, r: Request, counter: nat, dice: nat): (pick: (PoolId, nat))
    requires e != [] && forall id :: id in e ==> id in pools
    ensures pick.0 in e
    ensures r.strategy != RoundRobin ==> pick.1 == counter
    ensures r.strategy == RoundRobin ==> pick.0 == e[counter % |e|] && pick.1 < |e|
    ensures r.strategy == LeastUtilized ==> forall id :: id in e ==> UtilizationKey(pools[pick.0]) <= UtilizationKey(pools[id])
    ensures r.strategy == MostUtilized ==> forall id :: id in e ==> UtilizationKey(pools[pick.0]) >= UtilizationKey(pools[id])
  {
    match r.strategy
    case LeastUtilized => (LeastUsed(Usage(pools), e), counter)
    case MostUtilized => (MostUsed(Usage(pools), e), counter)
    case RoundRobin => RoundRobinPick(e, counter)
    case TopologyAware =>
      var hinted := if r.topologyHint.Some? then FirstWithHint(pools, e, r.topologyHint) else None;
      (if hinted.Some? then hinted.value else LeastUsed(Usage(pools), e), counter)
    case Random => (e[dice % |e|], counter)
  }

  /** The first phase of `allocate_ip`, under the read lock: the pool to use and the new counter. */
  function Choose(m: Manager, order: seq<PoolId>, r: Request, dice: nat): (Result<PoolId, Error>, nat)
    requires forall id :: id in order ==> id in m.pools
  {
    if r.preferredPool.Some? then
      var id := r.preferredPool.value;
      if id !in m.pools then (Err(NotFound), m.roundRobin)
      else if !HasCapacity(m.pools[id]) then (Err(ResourceExhausted), m.roundRobin)
      else (Ok(id), m.roundRobin)
    else
      var e := EligiblePools(m.pools, order, r);
      if e == [] then (Err(ResourceExhausted), m.roundRobin)
      else
        var (id, counter) := Pick(m.pools, e, r, m.roundRobin, dice);
        (Ok(id), counter)
  }

  // ---------------------------------------------------------------- second phase, and release

  function Grants(c: Config, a: Allocation): Grant {
    Grant(a, NetworkConfig(a.ip, c.subnet, c.gateway, c.dnsServers, c.vlanId, a.macAddress))
  }

  /** The second phase of `allocate_ip`, under the write locks. */
  function Commit(m: Manager, id: PoolId, r: Request, now: int): (Manager, Result<Grant, Error>) {
    if id !in m.pools then (m, Err(NotFound))
    else
      var (p, result) := Allocate(m.pools[id], now);
      match result
      case Err(e) => (m, Err(e))
      case Ok(ip) =>
        var a := Allocation(ip, id, r.vmId, r.macAddress, now, None);
        (Record(m.(pools := m.pools[id := p]), a), Ok(Grants(p.state.config, a)))
  }

  function ReleaseOne(m: Manager, ip: IpAddr): Manager {
    if ip !in m.allocations then m
    else
      var id := m.allocations[ip].poolId;
      m.(allocations := m.allocations - {ip},
         pools := if id in m.pools then m.pools[id := Release(m.pools[id], ip)] else m.pools)
  }

  function ReleaseEach(m: Manager, ips: seq<IpAddr>): Manager {
    if ips == [] then m else ReleaseOne(ReleaseEach(m, ips[..|ips| - 1]), ips[|ips| - 1])
  }

  function ReleaseVm(m: Manager, vm: VmId): Manager {
    if vm !in m.vmAllocations then m
    else ReleaseEach(m.(vmAllocations := m.vmAllocations - {vm}), m.vmAllocations[vm])
  }
}
