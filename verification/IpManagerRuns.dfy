/** Whole runs of the IP pool manager: loading, any interleaving of two-phase allocations with commands
    and releases, and when overlapping pools break it. */
module IpManagerRuns {
  import opened Outcomes
  import opened IpSearch
  import opened IpPool
  import opened IpManagerState
  import opened IpManagerSafety

  // ---------------------------------------------------------------- loading from storage

  ghost predicate DistinctAddresses(allocations: seq<Allocation>) {
    forall i, j :: 0 <= i < j < |allocations| ==> allocations[i].ip != allocations[j].ip
  }

  /** What stored data has to satisfy: distinct addresses, each naming a stored pool and lying in the reach
      of no other, and pools of different ids with nothing in common. */
  ghost predicate Loadable(configs: seq<Config>, allocations: seq<Allocation>) {
    && DistinctAddresses(allocations)
    && (forall a :: a in allocations ==> exists c :: c in configs && c.id == a.poolId)
    && (forall a, c :: a in allocations && c in configs && c.id != a.poolId ==> a.ip !in PoolReach(LoadedPool(c, allocations)))
    && (forall c, d :: c in configs && d in configs && c.id != d.id ==>
          PoolReach(LoadedPool(c, allocations)) !! PoolReach(LoadedPool(d, allocations)))
  }

  /** Only pools are set, each from a valid configuration and with the allocations that name it. */
  ghost predicate LoadedFrom(m: Manager, configs: seq<Config>, allocations: seq<Allocation>) {
    && m == Empty().(pools := m.pools)
    && forall id :: id in m.pools ==>
         exists c :: c in configs && c.id == id && Validated(c) && m.pools[id] == LoadedPool(c, allocations)
  }

  lemma LoadedOne(m: Manager, front: seq<Config>, c: Config, allocations: seq<Allocation>)
    requires LoadedFrom(m, front, allocations)
    ensures LoadedFrom(m, front + [c], allocations)
    ensures Validated(c) ==> LoadedFrom(m.(pools := m.pools[c.id := LoadedPool(c, allocations)]), front + [c], allocations)
  {
    assert c in front + [c];
    forall id | id in m.pools
      ensures exists d :: d in front + [c] && d.id == id && Validated(d) && m.pools[id] == LoadedPool(d, allocations)
    {
      var d :| d in front && d.id == id && Validated(d) && m.pools[id] == LoadedPool(d, allocations);
      assert d in front + [c];
    }
  }

  lemma {:induction false} LoadedPools(configs: seq<Config>, allocations: seq<Allocation>)
    ensures var (m, error) := LoadPools(Empty(), configs, allocations);
            && LoadedFrom(m, configs, allocations)
            && (error == None ==> forall c :: c in configs ==> c.id in m.pools)
  {
    if configs != [] {
      var front, last := configs[..|configs| - 1], configs[|configs| - 1];
      LoadedPools(front, allocations);
      LoadedOne(LoadPools(Empty(), front, allocations).0, front, last, allocations);
      assert configs == front + [last];
    }
  }

  lemma {:induction false} NamingFacts(allocations: seq<Allocation>, id: PoolId)
    requires DistinctAddresses(allocations)
    ensures DistinctAddresses(Naming(allocations, id))
    ensures forall a :: a in Naming(allocations, id) <==> a in allocations && a.poolId == id
  {
    if allocations != [] {
      var front, last := allocations[..|allocations| - 1], allocations[|allocations| - 1];
      assert allocations == front + [last];
      NamingFacts(front, id);
      assert forall a :: a in front ==> a.ip != last.ip;
    }
  }

  lemma {:induction false} AddressCount(allocations: seq<Allocation>)
    requires DistinctAddresses(allocations)
    ensures |Addresses(allocations)| == |allocations|
  {
    if allocations != [] {
      var front, last := allocations[..|allocations| - 1], allocations[|allocations| - 1];
      assert allocations == front + [last];
      AddressCount(front);
      assert Addresses(allocations) == Addresses(front) + {last.ip};
      assert last.ip !in Addresses(front);
    }
  }

  lemma {:induction false} RecordedAll(m: Manager, allocations: seq<Allocation>)
    requires m.allocations == map[] && m.vmAllocations == map[] && DistinctAddresses(allocations)
    ensures var n := RecordAll(m, allocations);
            && n.pools == m.pools
            && n.allocations.Keys == Addresses(allocations)
            && (forall a :: a in allocations ==> n.allocations[a.ip] == a)
            && VmsAgree(n)
  {
    if allocations == [] {
      assert forall vm: VmId :: VmListAgrees(m.allocations, m.vmAllocations, vm);
    } else {
      var front, last := allocations[..|allocations| - 1], allocations[|allocations| - 1];
      assert allocations == front + [last];
      RecordedAll(m, front);
      assert last.ip !in Addresses(front);
      RecordedOne(RecordAll(m, front), front, last);
    }
  }

  lemma RecordedOne(n: Manager, front: seq<Allocation>, last: Allocation)
    requires n.allocations.Keys == Addresses(front) && last.ip !in Addresses(front) && VmsAgree(n)
    requires forall a :: a in front ==> n.allocations[a.ip] == a
    ensures var x := Record(n, last);
            && x.pools == n.pools
            && x.allocations.Keys == Addresses(front + [last])
            && (forall a :: a in front + [last] ==> x.allocations[a.ip] == a)
            && VmsAgree(x)
  {
    RecordKeepsVms(n, n, last);
    assert Record(n, last).allocations == n.allocations[last.ip := last];
    assert Addresses(front + [last]) == Addresses(front) + {last.ip};
  }

  lemma LoadedPoolAgrees(c: Config, allocations: seq<Allocation>, held: set<IpAddr>)
    requires Validated(c) && DistinctAddresses(allocations) && held == Addresses(Naming(allocations, c.id))
    ensures PoolAgrees(LoadedPool(c, allocations), c.id, held)
    ensures LoadedPool(c, allocations).resources.factory == c
  {
    NamingFacts(allocations, c.id);
    AddressCount(Naming(allocations, c.id));
  }

  lemma HeldIsNaming(recorded: map<IpAddr, Allocation>, allocations: seq<Allocation>, id: PoolId)
    requires DistinctAddresses(allocations) && recorded.Keys == Addresses(allocations)
    requires forall a :: a in allocations ==> recorded[a.ip] == a
    ensures Held(recorded, id) == Addresses(Naming(allocations, id))
  {
    NamingFacts(allocations, id);
  }

  lemma LoadedSeparated(m: Manager, configs: seq<Config>, allocations: seq<Allocation>)
    requires Loadable(configs, allocations)
    requires forall id :: id in m.pools ==> exists c :: c in configs && c.id == id && m.pools[id] == LoadedPool(c, allocations)
    requires forall ip :: ip in m.allocations ==> m.allocations[ip] in allocations && m.allocations[ip].ip == ip
    ensures Separated(m)
  {
  }

  /** A load that succeeds on separated data makes all views agree. */
  lemma LoadIsConsistent(configs: seq<Config>, allocations: seq<Allocation>)
    requires Loadable(configs, allocations) && Load(Empty(), configs, allocations).1 == None
    ensures Consistent(Load(Empty(), configs, allocations).0)
  {
    LoadedPools(configs, allocations);
    var m := LoadPools(Empty(), configs, allocations).0;
    RecordedAll(m, allocations);
    var n := RecordAll(m, allocations);
    forall id | id in n.pools
      ensures PoolAgrees(n.pools[id], id, Held(n.allocations, id))
      ensures exists c :: c in configs && c.id == id && n.pools[id] == LoadedPool(c, allocations)
    {
      var c :| c in configs && c.id == id && Validated(c) && m.pools[id] == LoadedPool(c, allocations);
      HeldIsNaming(n.allocations, allocations, id);
      LoadedPoolAgrees(c, allocations, Held(n.allocations, id));
    }
    LoadedSeparated(n, configs, allocations);
  }

  /** The load gets past the valid configurations and stops at the first invalid one. */
  lemma {:induction false} LoadStopsAt(configs: seq<Config>, n: nat, allocations: seq<Allocation>)
    requires n <= |configs| && (forall i :: 0 <= i < n ==> Validated(configs[i])) && (n < |configs| ==> !Validated(configs[n]))
    ensures var (m, error) := LoadPools(Empty(), configs, allocations);
            && error == (if n < |configs| then Validate(configs[n]) else None)
            && forall id :: id in m.pools <==> exists i :: 0 <= i < n && configs[i].id == id
    decreases |configs|
  {
    if configs != [] {
      var front := configs[..|configs| - 1];
      LoadStopsAt(front, if n < |configs| then n else n - 1, allocations);
    }
  }

  /** A load stopped by an invalid configuration, the first being number `n`, leaves the pools before it in place without
      their records: the views then agree exactly when no stored allocation names one of those pools. */
  lemma StoppedLoad(configs: seq<Config>, n: nat, allocations: seq<Allocation>)
    requires DistinctAddresses(allocations)
    requires n < |configs| && (forall i :: 0 <= i < n ==> Validated(configs[i])) && !Validated(configs[n])
    ensures var (m, error) := Load(Empty(), configs, allocations);
            && error == Validate(configs[n])
            && m.allocations == map[] && m.vmAllocations == map[]
            && (PoolsAgree(m) <==> forall a, c :: a in allocations && c in configs[..n] ==> c.id != a.poolId)
  {
    LoadStopsAt(configs, n, allocations);
    LeftBehind(configs, allocations);
    var m := Load(Empty(), configs, allocations).0;
    forall a: Allocation
      ensures a.poolId in m.pools <==> exists c :: c in configs[..n] && c.id == a.poolId
    {
      if a.poolId in m.pools {
        var i :| 0 <= i < n && configs[i].id == a.poolId;
        assert configs[i] in configs[..n];
      }
    }
  }

  lemma LeftBehind(configs: seq<Config>, allocations: seq<Allocation>)
    requires DistinctAddresses(allocations) && Load(Empty(), configs, allocations).1.Some?
    ensures var m := Load(Empty(), configs, allocations).0;
            && m.allocations == map[] && m.vmAllocations == map[]
            && (PoolsAgree(m) <==> forall a :: a in allocations ==> a.poolId !in m.pools)
  {
    LoadedPools(configs, allocations);
    var m := Load(Empty(), configs, allocations).0;
    forall id | id in m.pools
      ensures PoolAgrees(m.pools[id], id, Held(m.allocations, id)) <==> forall a :: a in allocations ==> a.poolId != id
    {
      var c :| c in configs && c.id == id && Validated(c) && m.pools[id] == LoadedPool(c, allocations);
      NamingFacts(allocations, id);
      LoadedPoolAgrees(c, allocations, Addresses(Naming(allocations, id)));
      if a :| a in allocations && a.poolId == id {
        assert a.ip in Addresses(Naming(allocations, id));
      } else {
        assert Addresses(Naming(allocations, id)) == Held(m.allocations, id);
      }
    }
  }

  /** A valid pool with one stored allocation, then an invalid configuration: the pool is left with the address taken and no
      record of who has it. */
  lemma StoppedLoadDisagrees(good: Config, bad: Config, a: Allocation)
    requires Validated(good) && !Validated(bad) && a.poolId == good.id
    ensures Load(Empty(), [good, bad], [a]).1.Some? && !PoolsAgree(Load(Empty(), [good, bad], [a]).0)
  {
    StoppedLoad([good, bad], 1, [a]);
    assert a in [a] && [good, bad][..1][0] == good;
  }

  // ---------------------------------------------------------------- interleaved runs

  type Client = nat

  /** The manager, and the clients between the two phases of an allocation. */
  datatype World = World(manager: Manager, pending: map<Client, (PoolId, Request)>)

  datatype Step =
    | DoCommand(cmd: Command)
    | DoReleaseVm(vm: VmId)
    | DoChoose(client: Client, order: seq<PoolId>, request: Request, dice: nat)
    | DoCommit(client: Client, now: int)

  ghost predicate Allowed(w: World, s: Step) {
    match s
    case DoCommand(cmd) => cmd.CreatePool? ==> ClearOf(w.manager, cmd.config)
    case DoReleaseVm(_) => true
    case DoChoose(client, order, _, _) => client !in w.pending && Elements(order) == w.manager.pools.Keys
    case DoCommit(client, _) => client in w.pending
  }

  ghost function Next(w: World, s: Step): World
    requires Allowed(w, s)
  {
    match s
    case DoCommand(cmd) => w.(manager := Execute(w.manager, cmd).0)
    case DoReleaseVm(vm) => w.(manager := ReleaseVm(w.manager, vm))
    case DoChoose(client, order, request, dice) =>
      assert forall id :: id in order ==> id in Elements(order);
      var (choice, counter) := Choose(w.manager, order, request, dice);
      World(w.manager.(roundRobin := counter),
            if choice.Ok? then w.pending[client := (choice.value, request)] else w.pending)
    case DoCommit(client, now) =>
      World(Commit(w.manager, w.pending[client].0, w.pending[client].1, now).0, w.pending - {client})
  }

  ghost predicate AllowedRun(w: World, steps: seq<Step>)
    decreases |steps|
  {
    steps == [] || (Allowed(w, steps[0]) && AllowedRun(Next(w, steps[0]), steps[1..]))
  }

  ghost function After(w: World, steps: seq<Step>): World
    requires AllowedRun(w, steps)
    decreases |steps|
  {
    if steps == [] then w else After(Next(w, steps[0]), steps[1..])
  }

  lemma CounterIsNotAView(m: Manager, counter: nat)
    requires Consistent(m)
    ensures Consistent(m.(roundRobin := counter))
  {
    var n := m.(roundRobin := counter);
    assert Reach(n) == Reach(m);
    forall vm: VmId
      ensures VmListAgrees(n.allocations, n.vmAllocations, vm)
    {
      assert VmListAgrees(m.allocations, m.vmAllocations, vm);
    }
  }

  lemma NextKeepsConsistent(w: World, s: Step)
    requires Consistent(w.manager) && Allowed(w, s)
    ensures Consistent(Next(w, s).manager)
  {
    match s
    case DoCommand(cmd) => ExecuteKeepsConsistent(w.manager, cmd);
    case DoReleaseVm(vm) => ReleaseKeepsConsistent(w.manager, vm);
    case DoChoose(_, _, _, _) => CounterIsNotAView(w.manager, Next(w, s).manager.roundRobin);
    case DoCommit(client, now) => CommitKeepsConsistent(w.manager, w.pending[client].0, w.pending[client].1, now);
  }

  /** Every interleaving of commands, releases and the two phases of any number of allocations keeps all
      views of who holds which address equal. */
  lemma {:induction false} RunsStayConsistent(w: World, steps: seq<Step>)
    requires Consistent(w.manager) && AllowedRun(w, steps)
    ensures Consistent(After(w, steps).manager)
    decreases |steps|
  {
    if steps != [] {
      NextKeepsConsistent(w, steps[0]);
      RunsStayConsistent(Next(w, steps[0]), steps[1..]);
    }
  }

  /** From a loaded manager on, no address is ever in the lists of two VMs. */
  lemma LoadedRunsNeverShare(configs: seq<Config>, allocations: seq<Allocation>, steps: seq<Step>, a: VmId, b: VmId, ip: IpAddr)
    requires Loadable(configs, allocations) && Load(Empty(), configs, allocations).1 == None
    requires AllowedRun(World(Load(Empty(), configs, allocations).0, map[]), steps)
    requires var vms := After(World(Load(Empty(), configs, allocations).0, map[]), steps).manager.vmAllocations;
             ip in VmIps(vms, a) && ip in VmIps(vms, b)
    ensures a == b
  {
    LoadIsConsistent(configs, allocations);
    var w := World(Load(Empty(), configs, allocations).0, map[]);
    RunsStayConsistent(w, steps);
    NoAddressHeldTwice(After(w, steps).manager, a, b, ip);
  }

  // ---------------------------------------------------------------- overlapping pools

  lemma {:induction false} RunsConcatenate(w: World, first: seq<Step>, second: seq<Step>)
    requires AllowedRun(w, first) && AllowedRun(After(w, first), second)
    ensures AllowedRun(w, first + second) && After(w, first + second) == After(After(w, first), second)
    decreases |first|
  {
    if first == [] {
      assert first + second == second;
    } else {
      RunsConcatenate(Next(w, first[0]), first[1..], second);
      assert (first + second)[1..] == first[1..] + second;
    }
  }

  /** Nothing usable below a served address is left. */
  ghost predicate ServedInOrder(c: Config, shared: set<IpAddr>) {
    shared <= Usable(c) && forall ip :: ip in shared ==> Below(c, ip) <= shared
  }

  /** A pool that has served its least addresses and can serve `left` more, up to `total`, all to `vm`. */
  ghost predicate Draining(w: World, id: PoolId, vm: VmId, left: nat, total: nat) {
    && id in w.manager.pools && w.pending == map[]
    && var p := w.manager.pools[id];
    && PoolInv(p) && Validated(p.resources.factory) && p.state.config.enabled
    && ServedInOrder(p.resources.factory, p.shared)
    && |p.shared| + left == total <= |Usable(p.resources.factory)|
    && p.resources.totalCreated + left <= p.resources.maxSize
    && p.shared <= Elements(VmIps(w.manager.vmAllocations, vm))
  }

  /** `v` differs from `w` only in one pool, the records, and one VM's list. */
  ghost predicate OnlyServed(w: World, v: World, id: PoolId, vm: VmId) {
    && v.manager.pools.Keys == w.manager.pools.Keys && v.pending == w.pending
    && (forall other :: other in w.manager.pools && other != id ==> v.manager.pools[other] == w.manager.pools[other])
    && (forall other: VmId :: other != vm ==> VmIps(v.manager.vmAllocations, other) == VmIps(w.manager.vmAllocations, other))
    && (id in w.manager.pools ==> v.manager.pools[id].resources.factory == w.manager.pools[id].resources.factory)
  }

  function AskFor(id: PoolId, vm: VmId): Request {
    Request(vm, Some(id), map[], None, Random, "")
  }

  lemma SomeMissing(part: set<IpAddr>, whole: set<IpAddr>)
    requires part <= whole && |part| < |whole|
    ensures !(whole <= part)
  {
    if whole <= part {
      SubsetSize(whole, part);
    }
  }

  lemma OneMoreInOrder(p: Pool)
    requires PoolInv(p) && Validated(p.resources.factory) && ServedInOrder(p.resources.factory, p.shared)
    requires Allocate(p, 0).1.Ok?
    ensures ServedInOrder(p.resources.factory, Allocate(p, 0).0.shared)
  {
    AllocateKeepsInv(p, 0);
    var c, ip := p.resources.factory, Allocate(p, 0).1.value;
    forall other | other in Below(c, ip)
      ensures other in p.shared
    {
      assert other in Usable(c);
    }
  }

  /** The commit of one request to a draining pool serves one more of its addresses. */
  lemma CommitServes(w: World, id: PoolId, vm: VmId, left: nat, total: nat)
    requires Draining(w, id, vm, left, total) && left > 0
    ensures var v := w.(manager := Commit(w.manager, id, AskFor(id, vm), 0).0);
            Draining(v, id, vm, left - 1, total) && OnlyServed(w, v, id, vm)
  {
    var m := w.manager;
    PoolServes(m.pools[id], left);
    var (p, r) := Allocate(m.pools[id], 0);
    var vms := Commit(m, id, AskFor(id, vm), 0).0.vmAllocations;
    assert VmIps(vms, vm) == VmIps(m.vmAllocations, vm) + [r.value];
    assert Elements(VmIps(vms, vm)) == Elements(VmIps(m.vmAllocations, vm)) + {r.value};
  }

  /** A pool with permits and usable addresses left serves the next one in order. */
  lemma PoolServes(p: Pool, left: nat)
    requires PoolInv(p) && Validated(p.resources.factory) && ServedInOrder(p.resources.factory, p.shared) && left > 0
    requires |p.shared| + left <= |Usable(p.resources.factory)| && p.resources.totalCreated + left <= p.resources.maxSize
    ensures var (q, r) := Allocate(p, 0);
            && r.Ok? && PoolInv(q) && ServedInOrder(p.resources.factory, q.shared)
            && q.shared == p.shared + {r.value} && |q.shared| == |p.shared| + 1
            && q.resources == p.resources.(permits := p.resources.permits - 1, totalCreated := p.resources.totalCreated + 1)
            && q.state.config == p.state.config
  {
    SomeMissing(p.shared, Usable(p.resources.factory));
    AllocateKeepsInv(p, 0);
    OneMoreInOrder(p);
  }

  function ServeSteps(id: PoolId, vm: VmId, order: seq<PoolId>): seq<Step> {
    [DoChoose(0, order, AskFor(id, vm), 0), DoCommit(0, 0)]
  }

  lemma ServeRun(w: World, id: PoolId, vm: VmId, order: seq<PoolId>)
    requires id in w.manager.pools && HasCapacity(w.manager.pools[id]) && w.pending == map[]
    requires Elements(order) == w.manager.pools.Keys
    ensures AllowedRun(w, ServeSteps(id, vm, order))
    ensures After(w, ServeSteps(id, vm, order)) == w.(manager := Commit(w.manager, id, AskFor(id, vm), 0).0)
  {
    var steps := ServeSteps(id, vm, order);
    var mid := World(w.manager, map[0 := (id, AskFor(id, vm))]);
    assert Next(w, steps[0]) == mid;
    assert steps[1..] == [DoCommit(0, 0)] && steps[1..][1..] == [];
    var last := Next(mid, steps[1]);
    assert last.pending == map[];
    assert After(mid, steps[1..]) == After(last, []) == last;
  }

  lemma {:induction false} DrainPool(w: World, id: PoolId, vm: VmId, left: nat, total: nat, order: seq<PoolId>)
    returns (steps: seq<Step>)
    requires Draining(w, id, vm, left, total) && Elements(order) == w.manager.pools.Keys
    ensures forall s :: s in steps ==> !s.DoCommand?
    ensures AllowedRun(w, steps)
    ensures Draining(After(w, steps), id, vm, 0, total) && OnlyServed(w, After(w, steps), id, vm)
    decreases left
  {
    steps := [];
    if left > 0 {
      var first := ServeSteps(id, vm, order);
      ServeOne(w, id, vm, left, total, order);
      var v := After(w, first);
      var rest := DrainPool(v, id, vm, left - 1, total, order);
      RunsConcatenate(w, first, rest);
      ServedOnwards(w, v, After(v, rest), id, vm);
      steps := first + rest;
    }
  }

  lemma ServeOne(w: World, id: PoolId, vm: VmId, left: nat, total: nat, order: seq<PoolId>)
    requires Draining(w, id, vm, left, total) && left > 0 && Elements(order) == w.manager.pools.Keys
    ensures AllowedRun(w, ServeSteps(id, vm, order))
    ensures var v := After(w, ServeSteps(id, vm, order)); Draining(v, id, vm, left - 1, total) && OnlyServed(w, v, id, vm)
  {
    ServeRun(w, id, vm, order);
    CommitServes(w, id, vm, left, total);
  }

  lemma ServedOnwards(w: World, v: World, u: World, id: PoolId, vm: VmId)
    requires OnlyServed(w, v, id, vm) && OnlyServed(v, u, id, vm)
    ensures OnlyServed(w, u, id, vm)
  {
  }

  function TwoPools(a: Config, b: Config): World {
    World(Empty().(pools := map[a.id := FromState(NewState(a)), b.id := FromState(NewState(b))]), map[])
  }

  ghost predicate NeverShared(m: Manager) {
    forall v: VmId, w: VmId, ip :: ip in VmIps(m.vmAllocations, v) && ip in VmIps(m.vmAllocations, w) ==> v == w
  }

  /** How many addresses a new pool can serve. */
  function Servings(c: Config): nat {
    if TotalCapacity(c) < |Usable(c)| then TotalCapacity(c) else |Usable(c)|
  }

  lemma NewPoolDrains(w: World, id: PoolId, vm: VmId, c: Config)
    requires id in w.manager.pools && w.manager.pools[id] == FromState(NewState(c)) && w.pending == map[]
    requires Validated(c) && c.enabled
    ensures Draining(w, id, vm, Servings(c), Servings(c))
  {
  }

  /** A pool that has served all it can has served its least addresses. */
  lemma LeastAreServed(c: Config, shared: set<IpAddr>, ip: IpAddr)
    requires Validated(c) && ServedInOrder(c, shared) && |shared| == Servings(c) && ip in Least(c, TotalCapacity(c))
    ensures ip in shared
  {
    if ip !in shared {
      UsableOrder(c);
      assert shared <= Below(c, ip);
      SubsetSize(shared, Below(c, ip));
      SubsetSize(Below(c, ip) + {ip}, Usable(c));
      assert false;
    }
  }

  lemma OverlapIsShared(a: Config, b: Config, ip: IpAddr) returns (steps: seq<Step>)
    requires Validated(a) && Validated(b) && a.id != b.id && a.enabled && b.enabled
    requires ip in Least(a, TotalCapacity(a)) && ip in Least(b, TotalCapacity(b))
    ensures AllowedRun(TwoPools(a, b), steps) && forall s :: s in steps ==> !s.DoCommand?
    ensures var vms := After(TwoPools(a, b), steps).manager.vmAllocations; ip in VmIps(vms, 1) && ip in VmIps(vms, 2)
  {
    var w := TwoPools(a, b);
    var order := [a.id, b.id];
    assert Elements(order) == w.manager.pools.Keys;
    NewPoolDrains(w, a.id, 1, a);
    var first := DrainPool(w, a.id, 1, Servings(a), Servings(a), order);
    var v := After(w, first);
    LeastAreServed(a, v.manager.pools[a.id].shared, ip);
    NewPoolDrains(v, b.id, 2, b);
    var second := DrainPool(v, b.id, 2, Servings(b), Servings(b), order);
    LeastAreServed(b, After(v, second).manager.pools[b.id].shared, ip);
    RunsConcatenate(w, first, second);
    steps := first + second;
    assert ip in Elements(VmIps(v.manager.vmAllocations, 1));
    assert ip in Elements(VmIps(After(v, second).manager.vmAllocations, 2));
  }

  lemma TwoPoolsConsistent(a: Config, b: Config)
    requires Validated(a) && Validated(b) && a.id != b.id && Least(a, TotalCapacity(a)) !! Least(b, TotalCapacity(b))
    ensures Consistent(TwoPools(a, b).manager)
  {
    var m := TwoPools(a, b).manager;
    NewPoolAgrees(a);
    NewPoolAgrees(b);
    assert Held(m.allocations, a.id) == {} && Held(m.allocations, b.id) == {};
    assert forall vm: VmId :: VmListAgrees(m.allocations, m.vmAllocations, vm);
    TwoPoolsApart(a, b);
  }

  lemma TwoPoolsApart(a: Config, b: Config)
    requires a.id != b.id && Least(a, TotalCapacity(a)) !! Least(b, TotalCapacity(b))
    ensures Separated(TwoPools(a, b).manager)
  {
    assert Reach(TwoPools(a, b).manager) == map[a.id := Least(a, TotalCapacity(a)), b.id := Least(b, TotalCapacity(b))];
  }

  lemma ConsistentNeverShares(m: Manager)
    requires Consistent(m)
    ensures NeverShared(m)
  {
    forall v: VmId, w: VmId, ip | ip in VmIps(m.vmAllocations, v) && ip in VmIps(m.vmAllocations, w)
      ensures v == w
    {
      NoAddressHeldTwice(m, v, w, ip);
    }
  }

  /** Nothing compares the ranges of two pools. Two enabled pools are safe in every run of allocations and releases exactly
      when the addresses their permits reach, the least `total_capacity` usable ones of each, have none in common. */
  lemma DisjointExactlyWhenSafe(a: Config, b: Config)
    requires Validated(a) && Validated(b) && a.id != b.id && a.enabled && b.enabled
    ensures Least(a, TotalCapacity(a)) !! Least(b, TotalCapacity(b)) <==>
              forall steps: seq<Step> :: (forall s :: s in steps ==> !s.DoCommand?) && AllowedRun(TwoPools(a, b), steps) ==>
                NeverShared(After(TwoPools(a, b), steps).manager)
  {
    if Least(a, TotalCapacity(a)) !! Least(b, TotalCapacity(b)) {
      TwoPoolsConsistent(a, b);
      forall steps: seq<Step> | AllowedRun(TwoPools(a, b), steps)
        ensures NeverShared(After(TwoPools(a, b), steps).manager)
      {
        RunsStayConsistent(TwoPools(a, b), steps);
        ConsistentNeverShares(After(TwoPools(a, b), steps).manager);
      }
    } else {
      var ip :| ip in Least(a, TotalCapacity(a)) && ip in Least(b, TotalCapacity(b));
      var steps := OverlapIsShared(a, b, ip);
    }
  }
}
