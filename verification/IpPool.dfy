/** One IP address pool: the resource pool that rations allocations and the state that tracks them
    (`ip_pool.rs`, `patterns/resource_pool.rs`). */
module IpPool {
  import opened Outcomes
  import opened IpSearch

  // ---------------------------------------------------------------- the state and its operations as values

  /** `ResourcePool<IpAddress>`. `factory` is the factory's own copy of the configuration; a permit is
      forgotten when an acquired address is taken, so only a returned resource would give it back. */
  datatype ResourcePool = ResourcePool(
    factory: Config, available: seq<IpAddr>, permits: nat, totalCreated: nat, maxSize: nat)

  datatype PoolState = PoolState(
    config: Config, allocatedIps: set<IpAddr>, totalAllocated: nat, lastAllocation: Option<int>)

  /** `EnhancedIpPoolState`: the tracked state, the set shared with the factory, and the resource pool. */
  datatype Pool = Pool(state: PoolState, shared: set<IpAddr>, resources: ResourcePool)

  function NewState(c: Config): PoolState {
    PoolState(c, {}, 0, None)
  }

  /** `from_existing_state`; `EnhancedIpPoolState::new` is the case of an empty state. */
  function FromState(s: PoolState): Pool {
    var size := TotalCapacity(s.config);
    Pool(s, s.allocatedIps, ResourcePool(s.config, [], size, 0, size))
  }

  datatype Acquired = Acquired(result: Result<IpAddr, Error>, resources: ResourcePool, shared: set<IpAddr>)

  /** `acquire` followed by `take`: a permit is needed, an available address is reused, otherwise the
      factory searches for one. A failed creation gives the permit back. */
  function Acquire(rp: ResourcePool, shared: set<IpAddr>): Acquired {
    if rp.permits == 0 then Acquired(Err(Timeout), rp, shared)
    else if rp.available != [] then
      Acquired(Ok(rp.available[0]), rp.(available := rp.available[1..], permits := rp.permits - 1), shared)
    else match NextAvailable(rp.factory, shared)
      case None => Acquired(Err(ResourceExhausted), rp, shared)
      case Some(ip) =>
        Acquired(Ok(ip), rp.(permits := rp.permits - 1, totalCreated := rp.totalCreated + 1), shared + {ip})
  }

  function InUse(rp: ResourcePool): nat {
    if rp.totalCreated <= |rp.available| then 0 else rp.totalCreated - |rp.available|
  }

  predicate HasCapacity(p: Pool) {
    p.state.config.enabled && InUse(p.resources) < p.resources.maxSize
  }

  /** Utilisation in percent, as the statistics report it. */
  function Utilization(p: Pool): real {
    if p.resources.maxSize == 0 then 100.0 else InUse(p.resources) as real / p.resources.maxSize as real * 100.0
  }

  /** Utilisation in thousandths of a percent, the key pool selection compares. */
  function UtilizationKey(p: Pool): nat {
    if p.resources.maxSize == 0 then 100000 else InUse(p.resources) * 100000 / p.resources.maxSize
  }

  function Allocate(p: Pool, now: int): (Pool, Result<IpAddr, Error>) {
    var a := Acquire(p.resources, p.shared);
    match a.result
    case Err(_) => (p, a.result)
    case Ok(ip) =>
      (Pool(p.state.(allocatedIps := p.state.allocatedIps + {ip},
                     totalAllocated := p.state.totalAllocated + 1,
                     lastAllocation := Some(now)),
            a.shared, a.resources), a.result)
  }

  function Release(p: Pool, ip: IpAddr): Pool {
    var total := p.state.totalAllocated;
    Pool(if ip in p.state.allocatedIps then
           p.state.(allocatedIps := p.state.allocatedIps - {ip}, totalAllocated := if total == 0 then 0 else total - 1)
         else p.state,
         p.shared - {ip}, p.resources)
  }

  function Sync(p: Pool): Pool {
    p.(state := p.state.(allocatedIps := p.shared, totalAllocated := |p.shared|))
  }

  // ---------------------------------------------------------------- the object

  class EnhancedIpPoolState {
    var state: PoolState
    var shared: set<IpAddr>
    var resources: ResourcePool

    function View(): Pool
      reads this
    {
      Pool(state, shared, resources)
    }

    constructor (s: PoolState)
      ensures View() == FromState(s)
    {
      var size := TotalCapacity(s.config);
      state := s;
      shared := s.allocatedIps;
      resources := ResourcePool(s.config, [], size, 0, size);
    }

    method AllocateIp(now: int) returns (r: Result<IpAddr, Error>)
      modifies this
      ensures (View(), r) == Allocate(old(View()), now)
    {
      if resources.permits == 0 {
        return Err(Timeout);
      }
      var ip: IpAddr;
      if resources.available != [] {
        ip := resources.available[0];
        resources := resources.(available := resources.available[1..], permits := resources.permits - 1);
      } else {
        var found := FindNextAvailable(resources.factory, shared);
        if found == None {
          return Err(ResourceExhausted);
        }
        ip := found.value;
        shared := shared + {ip};
        resources := resources.(permits := resources.permits - 1, totalCreated := resources.totalCreated + 1);
      }
      state := state.(allocatedIps := state.allocatedIps + {ip},
      totalAllocated := state.totalAllocated + 1,
      lastAllocation := Some(now));
      r := Ok(ip);
    }

    method ReleaseIp(ip: IpAddr)
      modifies this
      ensures View() == Release(old(View()), ip)
    {
      if ip in state.allocatedIps {
        var total := state.totalAllocated;
        state := state.(allocatedIps := state.allocatedIps - {ip}, totalAllocated := if total == 0 then 0 else total - 1);
      }
      shared := shared - {ip};
    }

    method SyncState()
      modifies this
      ensures View() == Sync(old(View()))
    {
      state := state.(allocatedIps := shared, totalAllocated := |shared|);
    }
  }

  // ---------------------------------------------------------------- what every operation keeps

  /** The pool's two address sets agree, the counter is their size, nothing waits for reuse, and every
      permit not left is an address created at some time. */
  ghost predicate PoolInv(p: Pool) {
    && p.shared == p.state.allocatedIps
    && p.state.totalAllocated == |p.shared|
    && p.resources.available == []
    && p.resources.permits + p.resources.totalCreated == p.resources.maxSize
  }

  lemma AllocateKeepsInv(p: Pool, now: int)
    requires PoolInv(p) && Validated(p.resources.factory)
    ensures PoolInv(Allocate(p, now).0)
    ensures Allocate(p, now).1.Ok? <==>
              p.resources.totalCreated < p.resources.maxSize && !(Usable(p.resources.factory) <= p.shared)
    ensures Allocate(p, now).1.Err? ==> Allocate(p, now).0 == p
    ensures Allocate(p, now).1.Ok? ==>
              var ip := Allocate(p, now).1.value;
              && ip in Usable(p.resources.factory) - p.shared
              && (forall free :: free in Usable(p.resources.factory) - p.shared ==> ip.bits <= free.bits)
              && Allocate(p, now).0.shared == p.shared + {ip}
  {
    SearchIsLeast(p.resources.factory, p.shared);
  }

  lemma ReleaseKeepsInv(p: Pool, ip: IpAddr)
    requires PoolInv(p)
    ensures PoolInv(Release(p, ip))
    ensures Release(p, ip).shared == p.shared - {ip}
    ensures Release(p, ip).resources == p.resources
  {
  }

  // ---------------------------------------------------------------- what a pool can still hand out

  /** The usable addresses before `ip` in the order of the search. */
  function Below(c: Config, ip: IpAddr): set<IpAddr> {
    set other | other in Usable(c) && other.bits < ip.bits
  }

  /** The `n` least usable addresses. */
  function Least(c: Config, n: nat): set<IpAddr> {
    set ip | ip in Usable(c) && |Below(c, ip)| < n
  }

  /** The search takes the least free address, so with the permits left no address beyond these can be handed out; a release
      lowers the bound, an allocation leaves it. */
  function PoolReach(p: Pool): set<IpAddr> {
    Least(p.resources.factory, |p.shared| + p.resources.permits)
  }

  lemma AllocatedIsInReach(p: Pool, now: int)
    requires PoolInv(p) && Validated(p.resources.factory) && Allocate(p, now).1.Ok?
    ensures Allocate(p, now).1.value in PoolReach(p) - p.shared
    ensures PoolReach(Allocate(p, now).0) == PoolReach(p)
  {
    AllocateKeepsInv(p, now);
    var ip := Allocate(p, now).1.value;
    var c := p.resources.factory;
    forall other | other in Below(c, ip)
      ensures other in p.shared
    {
      assert other in Usable(c);
    }
    SubsetSize(Below(c, ip), p.shared);
  }

  lemma ReleaseNarrowsReach(p: Pool, ip: IpAddr)
    ensures PoolReach(Release(p, ip)) <= PoolReach(p)
  {
    SubsetSize(p.shared - {ip}, p.shared);
  }

  // ---------------------------------------------------------------- whole runs of one pool

  datatype PoolOp = DoAllocate(now: int) | DoRelease(ip: IpAddr) | DoSetEnabled(enabled: bool)

  function Apply(p: Pool, op: PoolOp): Pool {
    match op
    case DoAllocate(now) => Allocate(p, now).0
    case DoRelease(ip) => Release(p, ip)
    case DoSetEnabled(on) => p.(state := p.state.(config := p.state.config.(enabled := on)))
  }

  /** A run of a pool that starts from a stored state, a new pool's being the empty one. */
  function Run(s: PoolState, ops: seq<PoolOp>): Pool {
    if ops == [] then FromState(s) else Apply(Run(s, ops[..|ops| - 1]), ops[|ops| - 1])
  }

  /** The number of allocations in the run that succeeded. */
  function Successes(s: PoolState, ops: seq<PoolOp>): nat {
    if ops == [] then 0
    else
      var before, op := Run(s, ops[..|ops| - 1]), ops[|ops| - 1];
      Successes(s, ops[..|ops| - 1]) + if op.DoAllocate? && Allocate(before, op.now).1.Ok? then 1 else 0
  }

  /** The number of releases in the run that freed an address. */
  function Releases(s: PoolState, ops: seq<PoolOp>): nat {
    if ops == [] then 0
    else
      var before, op := Run(s, ops[..|ops| - 1]), ops[|ops| - 1];
      Releases(s, ops[..|ops| - 1]) + if op.DoRelease? && op.ip in before.shared then 1 else 0
  }

  /** A stored state: a valid configuration, and the counter of the addresses that are out. */
  ghost predicate Saved(s: PoolState) {
    Validated(s.config) && s.totalAllocated == |s.allocatedIps|
  }

  /** `p` may be reached from a pool of the stored state `s`. */
  ghost predicate InRun(s: PoolState, p: Pool) {
    && PoolInv(p)
    && p.resources.factory == s.config
    && p.resources.maxSize == TotalCapacity(s.config)
    && p.state.config == s.config.(enabled := p.state.config.enabled)
    && p.shared <= Usable(s.config) + s.allocatedIps
  }

  lemma ApplyStaysInRun(s: PoolState, p: Pool, op: PoolOp)
    requires Saved(s) && InRun(s, p)
    ensures InRun(s, Apply(p, op))
    ensures var q := Apply(p, op);
            var success := op.DoAllocate? && Allocate(p, op.now).1.Ok?;
            && q.resources.totalCreated == p.resources.totalCreated + (if success then 1 else 0)
            && |q.shared| == |p.shared| + (if success then 1 else 0) - (if op.DoRelease? && op.ip in p.shared then 1 else 0)
  {
    match op
    case DoAllocate(now) => AllocateKeepsInv(p, now);
    case DoRelease(ip) => ReleaseKeepsInv(p, ip);
    case DoSetEnabled(_) =>
  }

  lemma {:induction false} RunInv(s: PoolState, ops: seq<PoolOp>)
    requires Saved(s)
    ensures InRun(s, Run(s, ops))
    ensures Run(s, ops).resources.totalCreated == Successes(s, ops)
    ensures |Run(s, ops).shared| + Releases(s, ops) == |s.allocatedIps| + Successes(s, ops)
  {
    if ops != [] {
      RunInv(s, ops[..|ops| - 1]);
      ApplyStaysInRun(s, Run(s, ops[..|ops| - 1]), ops[|ops| - 1]);
    }
  }

  /** The instant of the last allocation that succeeded, or what was stored. */
  function LastServed(s: PoolState, ops: seq<PoolOp>): Option<int> {
    if ops == [] then s.lastAllocation
    else if Successes(s, ops) > Successes(s, ops[..|ops| - 1]) then Some(ops[|ops| - 1].now)
    else LastServed(s, ops[..|ops| - 1])
  }

  /** In every run the recorded last allocation is the last that succeeded. */
  lemma {:induction false} LastAllocationIsLatest(s: PoolState, ops: seq<PoolOp>)
    ensures Run(s, ops).state.lastAllocation == LastServed(s, ops)
  {
    if ops != [] {
      LastAllocationIsLatest(s, ops[..|ops| - 1]);
    }
  }

  /** In every run the factory's search and the pool state's search give the same answer, and it fails
      exactly when every usable address is out; counted, when only usable addresses were out at the start. */
  lemma SearchesAgree(s: PoolState, ops: seq<PoolOp>)
    requires Saved(s)
    ensures var p := Run(s, ops);
            && NextAvailable(p.state.config, p.state.allocatedIps) == NextAvailable(p.resources.factory, p.shared)
            && (NextAvailable(s.config, p.shared) == None <==> Usable(s.config) <= p.shared)
            && (s.allocatedIps <= Usable(s.config) ==>
                  |p.shared| <= |Usable(s.config)|
                  && (NextAvailable(s.config, p.shared) == None <==> |p.shared| == |Usable(s.config)|))
  {
    RunInv(s, ops);
    var p := Run(s, ops);
    SameSearch(p.state.config, s.config, p.shared, 0);
    SearchIsLeast(s.config, p.shared);
    if s.allocatedIps <= Usable(s.config) {
      SubsetSize(p.shared, Usable(s.config));
      assert Usable(s.config) <= p.shared ==> Usable(s.config) == p.shared;
    }
  }

  /** The search does not read the enabled flag. */
  lemma {:induction false} SameSearch(a: Config, b: Config, taken: set<IpAddr>, i: nat)
    requires a == b.(enabled := a.enabled) && i <= SearchCount(b)
    ensures NextFrom(a, taken, i) == NextFrom(b, taken, i)
    decreases SearchCount(b) - i
  {
    if i < SearchCount(b) {
      assert At(a, i) == At(b, i);
      SameSearch(a, b, taken, i + 1);
    }
  }

  /** When the capacity is the usable count, for which `CapacityIsUsableCount` and `Ipv6CapacityIsUsableCount` give the
      conditions, a pool is exhausted exactly when its allocated addresses number `total_capacity`, and the
      subtraction in `get_pool_stats` never underflows. */
  lemma ExhaustedExactlyAtCapacity(s: PoolState, ops: seq<PoolOp>)
    requires Saved(s) && s.allocatedIps <= Usable(s.config) && TotalCapacity(s.config) == |Usable(s.config)|
    ensures |Run(s, ops).state.allocatedIps| <= TotalCapacity(Run(s, ops).state.config)
    ensures NextAvailable(s.config, Run(s, ops).shared) == None <==>
              |Run(s, ops).state.allocatedIps| == TotalCapacity(Run(s, ops).state.config)
  {
    RunInv(s, ops);
    SearchesAgree(s, ops);
    CapacityIgnoresEnabled(Run(s, ops).state.config, s.config);
  }

  lemma CapacityIgnoresEnabled(a: Config, b: Config)
    requires a == b.(enabled := a.enabled)
    ensures TotalCapacity(a) == TotalCapacity(b)
  {
  }

  /** Releases never give capacity back: however many addresses are returned, a pool serves at most
      `total_capacity` allocations in its life, and reports capacity exactly while it has served fewer. */
  lemma LifetimeAllocations(s: PoolState, ops: seq<PoolOp>)
    requires Saved(s)
    ensures Successes(s, ops) <= TotalCapacity(s.config)
    ensures HasCapacity(Run(s, ops)) <==>
              Run(s, ops).state.config.enabled && Successes(s, ops) < TotalCapacity(s.config)
  {
    RunInv(s, ops);
  }

  /** `has_capacity` is meant to say that an address is free. For an enabled pool this holds exactly when, with allocations
      still to be served, the addresses out do not fill the pool; and, with none left, they do. */
  lemma CapacityMeansFreeAddress(s: PoolState, ops: seq<PoolOp>)
    requires Saved(s) && s.allocatedIps <= Usable(s.config) && Run(s, ops).state.config.enabled
    ensures (HasCapacity(Run(s, ops)) <==> NextAvailable(s.config, Run(s, ops).shared).Some?) <==>
              if Successes(s, ops) < TotalCapacity(s.config) then
                |s.allocatedIps| + Successes(s, ops) < |Usable(s.config)| + Releases(s, ops)
              else |s.allocatedIps| + Successes(s, ops) == |Usable(s.config)| + Releases(s, ops)
  {
    RunInv(s, ops);
    SearchesAgree(s, ops);
    LifetimeAllocations(s, ops);
  }

  /** After a release the next answer is the smaller of the freed address and the old answer; an address the search never
      looks at changes nothing. */
  lemma NextAfterRelease(s: PoolState, ops: seq<PoolOp>, ip: IpAddr)
    requires Saved(s) && ip in Run(s, ops).shared
    ensures var was := NextAvailable(s.config, Run(s, ops).shared);
            NextAvailable(s.config, Run(s, ops + [DoRelease(ip)]).shared) ==
              if ip !in Usable(s.config) || (was.Some? && was.value.bits < ip.bits) then was else Some(ip)
  {
    RunInv(s, ops);
    var p := Run(s, ops);
    assert (ops + [DoRelease(ip)])[..|ops|] == ops;
    var q := Run(s, ops + [DoRelease(ip)]);
    assert q.shared == p.shared - {ip};
    LeastAfterRelease(s.config, p.shared, ip);
  }

  lemma LeastAfterRelease(c: Config, shared: set<IpAddr>, ip: IpAddr)
    requires Validated(c) && ip in shared
    ensures var was := NextAvailable(c, shared);
            NextAvailable(c, shared - {ip}) ==
              if ip !in Usable(c) || (was.Some? && was.value.bits < ip.bits) then was else Some(ip)
  {
    SearchIsLeast(c, shared);
    SearchIsLeast(c, shared - {ip});
    UsableOrder(c);
    if ip in Usable(c) {
      assert ip in Usable(c) - (shared - {ip});
    } else {
      assert Usable(c) - (shared - {ip}) == Usable(c) - shared;
    }
  }

  /** Usable addresses of one pool differ in their bits. */
  lemma UsableOrder(c: Config)
    requires Validated(c)
    ensures forall a, b :: a in Usable(c) && b in Usable(c) && a.bits == b.bits ==> a == b
  {
    forall i: nat | i < SearchCount(c)
      ensures At(c, i).V4? == c.allocationStart.V4?
    {
      AtIsIncreasing(c, i);
    }
  }

  /** A one-address pool after one allocation and one release: the address is free, yet the pool reports
      no capacity and refuses to allocate. */
  lemma ReleaseLosesCapacity() returns (c: Config, ip: IpAddr)
    ensures Validated(c)
    ensures var p := Release(Allocate(FromState(NewState(c)), 0).0, ip);
            && NextAvailable(c, p.shared) == Some(ip)
            && !HasCapacity(p)
            && Allocate(p, 1).1 == Err(Timeout)
  {
    ip := V4(2);
    c := Config(1, "", IpNet(V4(0), V4(9)), None, V4(1), [], ip, ip, None, {}, true, map[]);
    assert SearchCount(c) == 1 && At(c, 0) == ip && TotalCapacity(c) == 1;
    assert NextFrom(c, {}, 0) == Some(ip);
    assert Release(Allocate(FromState(NewState(c)), 0).0, ip).shared == {};
  }

  /** A one-address pool loaded with its address out: it reports capacity, and has nothing to allocate. */
  lemma LoadedPoolLacksAddress() returns (s: PoolState)
    ensures Saved(s) && HasCapacity(FromState(s)) && Allocate(FromState(s), 0).1 == Err(ResourceExhausted)
  {
    var ip: IpAddr := V4(2);
    var c := Config(1, "", IpNet(V4(0), V4(9)), None, V4(1), [], ip, ip, None, {}, true, map[]);
    s := PoolState(c, {ip}, 1, None);
    assert SearchCount(c) == 1 && At(c, 0) == ip && TotalCapacity(c) == 1;
    assert NextFrom(c, {ip}, 0) == NextFrom(c, {ip}, 1) == None;
  }
}
