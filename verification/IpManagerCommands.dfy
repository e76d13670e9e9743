/** What the IP pool manager's commands change and undo, when they are refused, and when a reservation or an update reaches
    the addresses that are handed out. */
module IpManagerCommands {
  import opened Outcomes
  import opened IpSearch
  import opened IpPool
  import opened IpManagerState
  import opened IpManagerSafety

  // ---------------------------------------------------------------- refusals

  /** The pool a command is about. */
  function Target(cmd: Command): PoolId {
    match cmd
    case CreatePool(c) => c.id
    case UpdatePool(c) => c.id
    case DeletePool(id) => id
    case SetPoolEnabled(id, _) => id
    case ReserveIps(id, _) => id
    case ReleaseReservedIps(id, _) => id
  }

  /** The address is outside the pool's subnet, or out. */
  predicate NotReservable(m: Manager, id: PoolId, ip: IpAddr)
    requires id in m.pools
  {
    !m.pools[id].state.config.subnet.Contains(ip) || (ip in m.allocations && m.allocations[ip].poolId == id)
  }

  /** A command is refused exactly when its configuration is invalid, its pool is there already or is missing, addresses of
      a pool to be deleted are out, or an address to be reserved is out or outside the subnet. */
  lemma RefusedExactlyWhen(m: Manager, cmd: Command)
    requires Consistent(m)
    ensures var (n, error) := Execute(m, cmd);
            && (error.Some? <==>
                  || ((cmd.CreatePool? || cmd.UpdatePool?) && !Validated(cmd.config))
                  || (cmd.CreatePool? <==> Target(cmd) in m.pools)
                  || (cmd.DeletePool? && exists ip :: ip in m.allocations && m.allocations[ip].poolId == Target(cmd))
                  || (cmd.ReserveIps? && exists ip :: ip in cmd.ips && NotReservable(m, Target(cmd), ip)))
            && (error == Some(AlreadyExists) <==> cmd.CreatePool? && Validated(cmd.config) && Target(cmd) in m.pools)
            && (error == Some(NotFound) <==>
                  !cmd.CreatePool? && (cmd.UpdatePool? ==> Validated(cmd.config)) && Target(cmd) !in m.pools)
  {
    var id := Target(cmd);
    if id in m.pools {
      AllocatedAreRecorded(m, id);
    }
  }

  /** A command that is refused changes nothing, and any other nothing but its pool. */
  lemma ChangesOnlyItsPool(m: Manager, cmd: Command)
    ensures var (n, error) := Execute(m, cmd);
            && (error.Some? ==> n == m)
            && n.allocations == m.allocations && n.vmAllocations == m.vmAllocations && n.roundRobin == m.roundRobin
            && forall id :: id != Target(cmd) ==> (id in n.pools <==> id in m.pools) && (id in m.pools ==> n.pools[id] == m.pools[id])
  {
  }

  lemma AllocatedAreRecorded(m: Manager, id: PoolId)
    requires Consistent(m) && id in m.pools
    ensures forall ip :: ip in m.pools[id].state.allocatedIps <==> ip in m.allocations && m.allocations[ip].poolId == id
  {
    assert PoolAgrees(m.pools[id], id, Held(m.allocations, id));
  }

  /** A configuration is valid exactly when the gateway, both ends of the range and every reserved address lie in the subnet,
      the range does not run backwards, and the VLAN is a number from 1 to 4094. */
  lemma ValidExactlyWhen(c: Config)
    ensures Validated(c) <==>
              && c.subnet.first.V4? == c.subnet.last.V4? == c.gateway.V4?
              && c.subnet.first.bits <= c.gateway.bits <= c.subnet.last.bits
              && c.allocationStart.V4? == c.allocationEnd.V4? == c.gateway.V4?
              && c.subnet.first.bits <= c.allocationStart.bits <= c.allocationEnd.bits <= c.subnet.last.bits
              && (forall ip :: ip in c.reservedIps ==>
                    ip.V4? == c.gateway.V4? && c.subnet.first.bits <= ip.bits <= c.subnet.last.bits)
              && (c.vlanId == None || 1 <= c.vlanId.value <= 4094)
  {
    if Validated(c) {
      assert forall ip :: ip in c.reservedIps ==> c.subnet.Contains(ip);
    }
  }

  // ---------------------------------------------------------------- what a command undoes

  /** Deleting a pool just created restores the manager. */
  lemma DeleteUndoesCreate(m: Manager, c: Config)
    requires Execute(m, CreatePool(c)).1 == None
    ensures Execute(Execute(m, CreatePool(c)).0, DeletePool(c.id)) == (m, None)
  {
    var n := Execute(m, CreatePool(c)).0;
    assert n.pools - {c.id} == m.pools;
  }

  /** A created pool is empty, has its configuration, and a permit for each unit of capacity. */
  lemma CreatedIsEmpty(m: Manager, c: Config)
    requires Execute(m, CreatePool(c)).1 == None
    ensures var p := Execute(m, CreatePool(c)).0.pools[c.id];
            && p.state.config == c && p.resources.factory == c && p.shared == {} && p.state.allocatedIps == {}
            && p.state.totalAllocated == 0 && p.resources.permits == TotalCapacity(c)
  {
  }

  /** An update changes the tracked configuration and no allocation, permit or address set; updating back restores the
      manager. */
  lemma UpdateUndoesUpdate(m: Manager, c: Config)
    requires Consistent(m) && c.id in m.pools && Validated(c) && Validated(m.pools[c.id].state.config)
    requires m.pools[c.id].state.config.id == c.id
    ensures var n := Execute(m, UpdatePool(c)).0;
            && Execute(m, UpdatePool(c)).1 == None && c.id in n.pools
            && n.pools[c.id] == SetConfig(m.pools[c.id], c)
            && Execute(n, UpdatePool(m.pools[c.id].state.config)) == (m, None)
  {
    assert PoolAgrees(m.pools[c.id], c.id, Held(m.allocations, c.id));
    var n := Execute(m, UpdatePool(c)).0;
    assert n.pools[c.id] == SetConfig(m.pools[c.id], c);
    assert n.pools[c.id := m.pools[c.id]] == m.pools;
  }

  /** Reserving addresses that were not reserved and releasing them again restores the manager. */
  lemma ReleaseUndoesReserve(m: Manager, id: PoolId, ips: set<IpAddr>)
    requires Execute(m, ReserveIps(id, ips)).1 == None && m.pools[id].state.config.reservedIps !! ips
    ensures Execute(Execute(m, ReserveIps(id, ips)).0, ReleaseReservedIps(id, ips)) == (m, None)
  {
    var n := Execute(m, ReserveIps(id, ips)).0;
    var reserved := m.pools[id].state.config.reservedIps;
    assert reserved + ips - ips == reserved;
    assert n.pools[id := m.pools[id]] == m.pools;
  }

  // ---------------------------------------------------------------- enabling

  /** No request is given a disabled pool, not even one that prefers it. */
  lemma DisabledIsNotChosen(m: Manager, id: PoolId, order: seq<PoolId>, r: Request, dice: nat)
    requires id in m.pools && forall other :: other in order ==> other in m.pools
    ensures var n := Execute(m, SetPoolEnabled(id, false)).0;
            (forall other :: other in order ==> other in n.pools) && Choose(n, order, r, dice).0 != Ok(id)
  {
    var n := Execute(m, SetPoolEnabled(id, false)).0;
    assert !HasCapacity(n.pools[id]);
  }

  /** An enabled one is given to every request that prefers it, as long as it has capacity. */
  lemma EnabledIsChosen(m: Manager, id: PoolId, order: seq<PoolId>, r: Request, dice: nat)
    requires id in m.pools && (forall other :: other in order ==> other in m.pools) && r.preferredPool == Some(id)
    ensures var n := Execute(m, SetPoolEnabled(id, true)).0;
            && (forall other :: other in order ==> other in n.pools)
            && (Choose(n, order, r, dice).0 == Ok(id) <==> InUse(m.pools[id].resources) < m.pools[id].resources.maxSize)
  {
  }

  // ---------------------------------------------------------------- what consecutive allocations hand out

  function AfterAllocations(p: Pool, n: nat): Pool {
    if n == 0 then p else Allocate(AfterAllocations(p, n - 1), 0).0
  }

  function Free(p: Pool): set<IpAddr> {
    Usable(p.resources.factory) - p.shared
  }

  /** The free addresses before `ip` in the order of the search. */
  function FreeBelow(p: Pool, ip: IpAddr): set<IpAddr> {
    set other | other in Free(p) && other.bits < ip.bits
  }

  /** The `n` least free addresses. */
  function LeastFree(p: Pool, n: nat): set<IpAddr> {
    set ip | ip in Free(p) && |FreeBelow(p, ip)| < n
  }

  /** `given` is that set. */
  ghost predicate AreLeastFree(p: Pool, given: set<IpAddr>, n: nat) {
    forall ip {:trigger FreeBelow(p, ip)} :: ip in given <==> ip in Free(p) && |FreeBelow(p, ip)| < n
  }

  /** `q` is `p` after it has handed out the addresses `given`, its `n` least free ones. */
  ghost predicate HandedOut(p: Pool, q: Pool, given: set<IpAddr>, n: nat) {
    && PoolInv(q) && q.resources.factory == p.resources.factory
    && AreLeastFree(p, given, n) && given <= Free(p) && |given| <= n
    && q.shared == p.shared + given
    && q.resources.permits + |given| == p.resources.permits
  }

  lemma HigherHasMoreBelow(p: Pool, ip: IpAddr, other: IpAddr)
    requires ip in Free(p) && other.bits > ip.bits
    ensures |FreeBelow(p, other)| > |FreeBelow(p, ip)|
  {
    assert ip in FreeBelow(p, other) && ip !in FreeBelow(p, ip);
    SubsetSize(FreeBelow(p, ip) + {ip}, FreeBelow(p, other));
  }

  /** The least free address not yet handed out follows exactly the ones that are. */
  lemma NextFollows(p: Pool, given: set<IpAddr>, n: nat, ip: IpAddr)
    requires Validated(p.resources.factory) && AreLeastFree(p, given, n) && given <= Free(p) && ip in Free(p) - given
    requires forall other :: other in Free(p) - given ==> ip.bits <= other.bits
    ensures FreeBelow(p, ip) == given
  {
    UsableOrder(p.resources.factory);
    forall other | other in given
      ensures other.bits < ip.bits
    {
      assert |FreeBelow(p, other)| < n <= |FreeBelow(p, ip)|;
      if other.bits > ip.bits {
        HigherHasMoreBelow(p, ip, other);
      }
    }
  }

  lemma OneMoreFree(p: Pool, given: set<IpAddr>, n: nat, ip: IpAddr)
    requires Validated(p.resources.factory) && AreLeastFree(p, given, n) && given <= Free(p) && |given| <= n
    requires ip in Free(p) - given && forall other :: other in Free(p) - given ==> ip.bits <= other.bits
    ensures AreLeastFree(p, given + {ip}, n + 1) && |given| == n
  {
    NextFollows(p, given, n, ip);
    UsableOrder(p.resources.factory);
    assert |FreeBelow(p, ip)| >= n;
    forall other: IpAddr
      ensures other in given + {ip} <==> other in Free(p) && |FreeBelow(p, other)| < n + 1
    {
      if other in Free(p) && other.bits > ip.bits {
        HigherHasMoreBelow(p, ip, other);
      }
      assert other in given <==> other in Free(p) && |FreeBelow(p, other)| < n;
    }
  }

  lemma NoneIsLeft(q: Pool)
    requires PoolInv(q) && Validated(q.resources.factory) && Free(q) == {}
    ensures Allocate(q, 0).0 == q
  {
    AllocateKeepsInv(q, 0);
  }

  /** With a permit and a free address left an allocation takes the least one, and the permit. */
  lemma TakesLeast(q: Pool) returns (ip: IpAddr)
    requires PoolInv(q) && Validated(q.resources.factory) && Free(q) != {} && q.resources.permits > 0
    ensures ip in Free(q) && forall other :: other in Free(q) ==> ip.bits <= other.bits
    ensures var r := Allocate(q, 0).0;
            && PoolInv(r) && r.resources.factory == q.resources.factory
            && r.shared == q.shared + {ip} && r.resources.permits == q.resources.permits - 1
  {
    AllocateKeepsInv(q, 0);
    ip := Allocate(q, 0).1.value;
  }

  /** One more allocation hands out one more of them, or all are out. */
  lemma HandsOutNext(p: Pool, q: Pool, given: set<IpAddr>, n: nat) returns (more: set<IpAddr>)
    requires Validated(p.resources.factory) && HandedOut(p, q, given, n) && n < p.resources.permits
    ensures HandedOut(p, Allocate(q, 0).0, more, n + 1)
  {
    assert Free(q) == Free(p) - given;
    more := given;
    if Free(q) == {} {
      NoneIsLeft(q);
      assert AreLeastFree(p, given, n + 1);
    } else {
      var ip := TakesLeast(q);
      OneMoreFree(p, given, n, ip);
      more := given + {ip};
      assert p.shared + given + {ip} == p.shared + more;
    }
  }

  lemma PermitsRunOut(p: Pool, q: Pool, given: set<IpAddr>, n: nat)
    requires Validated(p.resources.factory) && HandedOut(p, q, given, n) && n == p.resources.permits
    ensures Allocate(q, 0).0 == q
  {
    assert Free(q) == Free(p) - given;
    if q.resources.permits > 0 && Free(q) != {} {
      var ip := TakesLeast(q);
      OneMoreFree(p, given, n, ip);
    } else if Free(q) == {} {
      NoneIsLeft(q);
    }
  }

  lemma {:induction false} WhilePermitsLast(p: Pool, n: nat) returns (given: set<IpAddr>)
    requires PoolInv(p) && Validated(p.resources.factory) && n <= p.resources.permits
    ensures HandedOut(p, AfterAllocations(p, n), given, n)
  {
    given := {};
    if n > 0 {
      var before := WhilePermitsLast(p, n - 1);
      given := HandsOutNext(p, AfterAllocations(p, n - 1), before, n - 1);
    }
  }

  lemma {:induction false} NoneWithoutPermits(p: Pool, n: nat)
    requires PoolInv(p) && Validated(p.resources.factory) && n >= p.resources.permits
    ensures AfterAllocations(p, n) == AfterAllocations(p, p.resources.permits)
  {
    if n > p.resources.permits {
      NoneWithoutPermits(p, n - 1);
      StopsWithoutPermits(p);
    }
  }

  lemma StopsWithoutPermits(p: Pool)
    requires PoolInv(p) && Validated(p.resources.factory)
    ensures Allocate(AfterAllocations(p, p.resources.permits), 0).0 == AfterAllocations(p, p.resources.permits)
  {
    var given := WhilePermitsLast(p, p.resources.permits);
    PermitsRunOut(p, AfterAllocations(p, p.resources.permits), given, p.resources.permits);
  }

  lemma LeastFreeIs(p: Pool, given: set<IpAddr>, n: nat)
    requires AreLeastFree(p, given, n)
    ensures given == LeastFree(p, n)
  {
    forall ip: IpAddr
      ensures ip in given <==> ip in LeastFree(p, n)
    {
      var below := |FreeBelow(p, ip)|;
      assert ip in given <==> ip in Free(p) && below < n;
    }
  }

  /** Consecutive allocations hand out exactly the least free usable addresses, one each while permits last. */
  lemma AllocationsTakeLeastFree(p: Pool, n: nat)
    requires PoolInv(p) && Validated(p.resources.factory)
    ensures AfterAllocations(p, n).shared == p.shared + LeastFree(p, if n < p.resources.permits then n else p.resources.permits)
  {
    var m := if n < p.resources.permits then n else p.resources.permits;
    var given := WhilePermitsLast(p, m);
    LeastFreeIs(p, given, m);
    if n >= p.resources.permits {
      NoneWithoutPermits(p, n);
    }
  }

  /** However many allocations follow, they hand out nothing but the least free addresses, as many as permits are left, and
      at last all of these. */
  lemma HandedOutExactly(p: Pool, n: nat)
    requires PoolInv(p) && Validated(p.resources.factory)
    ensures AfterAllocations(p, n).shared - p.shared <= LeastFree(p, p.resources.permits)
    ensures AfterAllocations(p, p.resources.permits).shared == p.shared + LeastFree(p, p.resources.permits)
  {
    AllocationsTakeLeastFree(p, n);
    AllocationsTakeLeastFree(p, p.resources.permits);
  }

  // ---------------------------------------------------------------- reservations

  /** After a reservation the search over the tracked configuration finds none of the addresses reserved, whatever is
      taken. */
  lemma ReservedAreNotFound(m: Manager, id: PoolId, ips: set<IpAddr>, taken: set<IpAddr>)
    requires Execute(m, ReserveIps(id, ips)).1 == None
    ensures var found := NextAvailable(Execute(m, ReserveIps(id, ips)).0.pools[id].state.config, taken);
            found.Some? ==> found.value !in ips
  {
    NextFromFinds(Execute(m, ReserveIps(id, ips)).0.pools[id].state.config, taken, 0);
  }

  /** But allocations search with the configuration the pool was made with: they keep off the addresses reserved since
      exactly when those are not among the least free ones, as many as permits are left. */
  lemma ReservedKeptExactlyWhenUnreached(m: Manager, id: PoolId, ips: set<IpAddr>)
    requires Consistent(m) && Execute(m, ReserveIps(id, ips)).1 == None
    ensures (forall n: nat :: AfterAllocations(Execute(m, ReserveIps(id, ips)).0.pools[id], n).shared !! ips) <==>
            LeastFree(m.pools[id], m.pools[id].resources.permits) !! ips
  {
    var p, q := m.pools[id], Execute(m, ReserveIps(id, ips)).0.pools[id];
    assert PoolAgrees(p, id, Held(m.allocations, id));
    assert p.shared !! ips;
    SameLeastFree(p, q);
    KeepsOff(q, ips);
  }

  lemma KeepsOff(p: Pool, ips: set<IpAddr>)
    requires PoolInv(p) && Validated(p.resources.factory) && p.shared !! ips
    ensures (forall n: nat :: AfterAllocations(p, n).shared !! ips) <==> LeastFree(p, p.resources.permits) !! ips
  {
    var reached := LeastFree(p, p.resources.permits);
    if reached !! ips {
      forall n: nat
        ensures AfterAllocations(p, n).shared !! ips
      {
        HandedOutExactly(p, n);
        Disjoint(AfterAllocations(p, n).shared, p.shared, reached, ips);
      }
    } else {
      HandedOutExactly(p, 0);
      var ip :| ip in reached && ip in ips;
      assert ip in AfterAllocations(p, p.resources.permits).shared;
    }
  }

  lemma Disjoint(whole: set<IpAddr>, a: set<IpAddr>, b: set<IpAddr>, ips: set<IpAddr>)
    requires whole - a <= b && a !! ips && b !! ips
    ensures whole !! ips
  {
  }

  lemma SameLeastFree(p: Pool, q: Pool)
    requires q.resources == p.resources && q.shared == p.shared
    ensures LeastFree(q, p.resources.permits) == LeastFree(p, p.resources.permits)
  {
    assert forall ip :: FreeBelow(q, ip) == FreeBelow(p, ip);
  }

  /** After an update to `c` every address handed out fits the subnet, the gateway and the reservations that go with it
      exactly when the least free ones of the old configuration do, as many as permits are left. */
  lemma GrantsFitExactlyWhen(m: Manager, c: Config)
    requires Consistent(m) && Execute(m, UpdatePool(c)).1 == None
    ensures var p, q := m.pools[c.id], Execute(m, UpdatePool(c)).0.pools[c.id];
            (forall n: nat :: AllFit(c, AfterAllocations(q, n).shared - p.shared)) <==> AllFit(c, LeastFree(p, p.resources.permits))
  {
    var p, q := m.pools[c.id], Execute(m, UpdatePool(c)).0.pools[c.id];
    assert PoolAgrees(p, c.id, Held(m.allocations, c.id));
    SameLeastFree(p, q);
    HandedOutExactly(q, 0);
    assert AfterAllocations(q, q.resources.permits).shared - p.shared == LeastFree(p, p.resources.permits);
    forall n: nat
      ensures AfterAllocations(q, n).shared - p.shared <= LeastFree(p, p.resources.permits)
    {
      HandedOutExactly(q, n);
    }
  }

  predicate AllFit(c: Config, ips: set<IpAddr>) {
    forall ip :: ip in ips ==> c.subnet.Contains(ip) && ip != c.gateway && ip !in c.reservedIps
  }

  /** A pool of one address: reserved, and handed out all the same. */
  lemma ReservedIsHandedOut(vm: VmId)
    ensures var c := Config(0, "", IpNet(V4(0), V4(1)), None, V4(0), [], V4(1), V4(1), None, {}, true, map[]);
            var created := Execute(Empty(), CreatePool(c));
            var reserved := Execute(created.0, ReserveIps(0, {V4(1)}));
            var r := Request(vm, Some(0), map[], None, Random, "");
            && created.1 == None && reserved.1 == None
            && V4(1) in reserved.0.pools[0].state.config.reservedIps
            && Choose(reserved.0, [], r, 0).0 == Ok(0)
            && Commit(reserved.0, 0, r, 0).1.Ok? && Commit(reserved.0, 0, r, 0).1.value.network.ipAddress == V4(1)
  {
    var c := Config(0, "", IpNet(V4(0), V4(1)), None, V4(0), [], V4(1), V4(1), None, {}, true, map[]);
    assert SearchCount(c) == 1 && At(c, 0) == V4(1) && Available(c, {}, V4(1));
    assert NextAvailable(c, {}) == Some(V4(1));
  }
}
