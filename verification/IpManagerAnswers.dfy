/** What the IP pool manager answers: which pool each strategy chooses, what a grant tells the machine, and what each
    command changes. */
module IpManagerAnswers {
  import opened Outcomes
  import opened IpSearch
  import opened IpPool
  import opened IpManagerState
  import opened IpManagerSafety
  import opened RoundRobinFairness

  // ---------------------------------------------------------------- what a grant tells the machine

  /** A grant's address is the least free one of the pool and the next in the machine's list; the network settings are those
      of the pool's current configuration, with the request's MAC address. */
  lemma GrantIsWhole(m: Manager, id: PoolId, r: Request, now: int)
    requires Consistent(m) && Commit(m, id, r, now).1.Ok?
    ensures id in m.pools
    ensures var (n, result) := Commit(m, id, r, now);
            var g := result.value;
            && g.network.ipAddress in Usable(m.pools[id].resources.factory) - m.pools[id].shared
            && (forall ip :: ip in Usable(m.pools[id].resources.factory) - m.pools[id].shared ==>
                  g.network.ipAddress.bits <= ip.bits)
            && VmIps(n.vmAllocations, r.vmId) == VmIps(m.vmAllocations, r.vmId) + [g.network.ipAddress]
            && (forall vm: VmId :: vm != r.vmId ==> VmIps(n.vmAllocations, vm) == VmIps(m.vmAllocations, vm))
            && g.network.gateway == m.pools[id].state.config.gateway
            && g.network.subnet == m.pools[id].state.config.subnet
            && g.network.dnsServers == m.pools[id].state.config.dnsServers
            && g.network.vlanId == m.pools[id].state.config.vlanId
            && g.network.macAddress == r.macAddress
  {
    assert PoolAgrees(m.pools[id], id, Held(m.allocations, id));
    AllocateKeepsInv(m.pools[id], now);
  }

  /** The record of a grant names the machine, the pool and the request's MAC address, with the instant and without expiry; the
      rest of the manager stays as it is. */
  lemma GrantIsRecorded(m: Manager, id: PoolId, r: Request, now: int)
    requires Commit(m, id, r, now).1.Ok?
    ensures id in m.pools
    ensures var (n, result) := Commit(m, id, r, now);
            var a := result.value.allocation;
            && a.ip == result.value.network.ipAddress && a.ip in n.allocations && n.allocations[a.ip] == a
            && a.vmId == r.vmId && a.poolId == id && a.macAddress == r.macAddress
            && a.allocatedAt == now && a.expiresAt == None
            && n.roundRobin == m.roundRobin && n.pools.Keys == m.pools.Keys
            && n.pools[id].state.config == m.pools[id].state.config && n.pools[id].state.lastAllocation == Some(now)
            && forall other :: other in m.pools && other != id ==> n.pools[other] == m.pools[other]
  {
  }

  // ---------------------------------------------------------------- which pool is chosen

  /** A pool's share in use. */
  function Share(p: Pool): real
    requires p.resources.maxSize > 0
  {
    InUse(p.resources) as real / p.resources.maxSize as real
  }

  /** The pools the request may be given, among those of the order. */
  predicate Offered(m: Manager, order: seq<PoolId>, r: Request, id: PoolId)
    requires forall other :: other in order ==> other in m.pools
  {
    && id in order
    && m.pools[id].state.config.enabled
    && (forall k :: k in r.requiredTags ==> k in m.pools[id].state.config.tags && m.pools[id].state.config.tags[k] == r.requiredTags[k])
    && (r.topologyHint == None || m.pools[id].state.config.topologyHint in {None, r.topologyHint})
    && InUse(m.pools[id].resources) < m.pools[id].resources.maxSize
  }

  /** A request without a preferred pool is refused exactly when no pool may be given to it, and otherwise gets one that
      may. */
  lemma ChosenIsOffered(m: Manager, order: seq<PoolId>, r: Request, dice: nat)
    requires (forall id :: id in order ==> id in m.pools) && r.preferredPool == None
    ensures var choice := Choose(m, order, r, dice).0;
            && (choice == Err(ResourceExhausted) <==> forall id :: id in order ==> !Offered(m, order, r, id))
            && (choice.Err? ==> choice == Err(ResourceExhausted))
            && (choice.Ok? ==> Offered(m, order, r, choice.value))
  {
    var e := EligiblePools(m.pools, order, r);
    forall id | id in order
      ensures Offered(m, order, r, id) <==> id in e
    {
    }
    if e != [] {
      assert e[0] in e;
    }
  }

  /** A preferred pool is given exactly when it exists, is enabled and has capacity, whatever its tags and hint. */
  lemma PreferredIsGiven(m: Manager, order: seq<PoolId>, r: Request, dice: nat, id: PoolId)
    requires (forall other :: other in order ==> other in m.pools) && r.preferredPool == Some(id)
    ensures Choose(m, order, r, dice).1 == m.roundRobin
    ensures Choose(m, order, r, dice).0 ==
              if id !in m.pools then Err(NotFound)
              else if m.pools[id].state.config.enabled && InUse(m.pools[id].resources) < m.pools[id].resources.maxSize then Ok(id)
              else Err(ResourceExhausted)
  {
  }

  /** The key is the utilisation that the statistics report, in thousandths of a percent, rounded down; a pool without any
      capacity is fully used. */
  lemma KeyIsThousandths(p: Pool)
    ensures UtilizationKey(p) as real <= Utilization(p) * 1000.0 < UtilizationKey(p) as real + 1.0
    ensures Utilization(p) == if p.resources.maxSize > 0 then Share(p) * 100.0 else 100.0
  {
    var a, n := InUse(p.resources), p.resources.maxSize;
    if n > 0 {
      Quotient(a * 100000, n);
      RealQuotient(a * 100000, n, UtilizationKey(p));
      ScaledShare(a as real, n as real);
    }
  }

  lemma RealQuotient(x: nat, n: nat, k: nat)
    requires n > 0 && k * n <= x < (k + 1) * n
    ensures k as real <= x as real / n as real < k as real + 1.0
  {
    var q, nr := x as real / n as real, n as real;
    assert q * nr == x as real;
    assert k as real * nr == (k * n) as real && (k as real + 1.0) * nr == ((k + 1) * n) as real;
    if q < k as real {
      Smaller(q, k as real, nr);
    }
    assert x as real < ((k + 1) * n) as real;
    if q >= k as real + 1.0 {
      NotSmaller(k as real + 1.0, q, nr);
    }
  }

  lemma Smaller(x: real, y: real, n: real)
    requires x < y && n > 0.0
    ensures x * n < y * n
  {
  }

  lemma NotSmaller(x: real, y: real, n: real)
    requires x <= y && n > 0.0
    ensures x * n <= y * n
  {
  }

  lemma ScaledShare(a: real, n: real)
    requires n > 0.0
    ensures a * 100000.0 / n == a / n * 100.0 * 1000.0
  {
    var q := a / n;
    assert q * n == a;
    assert q * 100.0 * 1000.0 * n == a * 100000.0;
  }

  /** Keys in order are shares in order, up to the thousandth of a percent that the key drops. */
  lemma KeysBoundShares(a: nat, m: nat, b: nat, n: nat)
    requires m > 0 && n > 0 && a * 100000 / m <= b * 100000 / n
    ensures a * 100000 * n < b * 100000 * m + m * n
  {
    var k := b * 100000 / n;
    assert a * 100000 < (k + 1) * m by {
      Quotient(a * 100000, m);
      Ordered(a * 100000 / m + 1, k + 1, m);
    }
    Quotient(b * 100000, n);
    calc {
      a * 100000 * n;
    <  { Scaled(a * 100000, (k + 1) * m, n); }
      (k + 1) * m * n;
    ==  { Rearranged(k, m, n); }
      k * n * m + m * n;
    <=  { Ordered(k * n, b * 100000, m); }
      b * 100000 * m + m * n;
    }
  }

  lemma Quotient(x: nat, n: nat)
    requires n > 0
    ensures x / n * n <= x < (x / n + 1) * n
  {
    assert x == x / n * n + x % n;
    assert (x / n + 1) * n == x / n * n + n;
  }

  lemma Ordered(x: nat, y: nat, n: nat)
    requires x <= y
    ensures x * n <= y * n
  {
  }

  lemma Scaled(x: nat, y: nat, n: nat)
    requires x < y && n > 0
    ensures x * n < y * n
  {
  }

  lemma Rearranged(k: nat, m: nat, n: nat)
    ensures (k + 1) * m * n == k * n * m + m * n
  {
    assert (k + 1) * m == k * m + m;
    assert (k * m + m) * n == k * m * n + m * n;
    assert k * m * n == k * (m * n) == k * (n * m) == k * n * m;
  }

  lemma SharesBound(a: nat, m: nat, b: nat, n: nat)
    requires m > 0 && n > 0 && a * 100000 * n < b * 100000 * m + m * n
    ensures a as real / m as real < b as real / n as real + 0.00001
  {
    var x, y := a as real / m as real, b as real / n as real;
    if x >= y + 0.00001 {
      Product(x - y - 0.00001, m as real, n as real);
      Distributed(x, y, a, m, b, n);
    }
  }

  lemma Product(d: real, m: real, n: real)
    requires d >= 0.0 && m > 0.0 && n > 0.0
    ensures d * (m * n) >= 0.0
  {
    assert m * n > 0.0;
  }

  lemma Distributed(x: real, y: real, a: nat, m: nat, b: nat, n: nat)
    requires x * m as real == a as real && y * n as real == b as real
    ensures (x - y - 0.00001) * (m as real * n as real) == (a * n) as real - (b * m) as real - 0.00001 * (m * n) as real
  {
    var p := m as real * n as real;
    assert p == (m * n) as real;
    assert x * p == x * m as real * n as real == (a * n) as real;
    assert y * p == y * n as real * m as real == (b * m) as real;
  }

  lemma SharesInOrder(p: Pool, q: Pool)
    requires p.resources.maxSize > 0 && q.resources.maxSize > 0 && UtilizationKey(p) <= UtilizationKey(q)
    ensures Share(p) < Share(q) + 0.00001
  {
    var a, b := InUse(p.resources), InUse(q.resources);
    KeysBoundShares(a, p.resources.maxSize, b, q.resources.maxSize);
    SharesBound(a, p.resources.maxSize, b, q.resources.maxSize);
  }

  /** `LeastUtilized`: no pool that may be given undercuts the share of the chosen one by a thousandth of a percent. */
  lemma LeastUtilizedIsLeast(m: Manager, order: seq<PoolId>, r: Request, dice: nat, other: PoolId)
    requires (forall id :: id in order ==> id in m.pools) && r.preferredPool == None && r.strategy == LeastUtilized
    requires Offered(m, order, r, other)
    ensures var choice := Choose(m, order, r, dice).0;
            choice.Ok? && Offered(m, order, r, choice.value) && Share(m.pools[choice.value]) < Share(m.pools[other]) + 0.00001
  {
    ChosenIsOffered(m, order, r, dice);
    var id := Choose(m, order, r, dice).0.value;
    assert other in EligiblePools(m.pools, order, r);
    SharesInOrder(m.pools[id], m.pools[other]);
  }

  /** `MostUtilized`: none exceeds it by that. */
  lemma MostUtilizedIsMost(m: Manager, order: seq<PoolId>, r: Request, dice: nat, other: PoolId)
    requires (forall id :: id in order ==> id in m.pools) && r.preferredPool == None && r.strategy == MostUtilized
    requires Offered(m, order, r, other)
    ensures var choice := Choose(m, order, r, dice).0;
            choice.Ok? && Offered(m, order, r, choice.value) && Share(m.pools[other]) < Share(m.pools[choice.value]) + 0.00001
  {
    ChosenIsOffered(m, order, r, dice);
    var id := Choose(m, order, r, dice).0.value;
    assert other in EligiblePools(m.pools, order, r);
    SharesInOrder(m.pools[other], m.pools[id]);
  }

  /** Some pool that may be given has the request's hint. */
  ghost predicate HintOffered(m: Manager, order: seq<PoolId>, r: Request)
    requires forall id :: id in order ==> id in m.pools
  {
    r.topologyHint.Some? &&
    exists id :: id in order && Offered(m, order, r, id) && m.pools[id].state.config.topologyHint == r.topologyHint
  }

  lemma HintIsFound(m: Manager, order: seq<PoolId>, r: Request)
    requires forall id :: id in order ==> id in m.pools
    ensures HintOffered(m, order, r) <==>
              r.topologyHint.Some? && FirstWithHint(m.pools, EligiblePools(m.pools, order, r), r.topologyHint).Some?
  {
    var e := EligiblePools(m.pools, order, r);
    if r.topologyHint.Some? && FirstWithHint(m.pools, e, r.topologyHint).Some? {
      assert Offered(m, order, r, FirstWithHint(m.pools, e, r.topologyHint).value);
    }
  }

  /** `TopologyAware`: a pool with the hint whenever one may be given, else one of least share. */
  lemma TopologyAwarePrefersHint(m: Manager, order: seq<PoolId>, r: Request, dice: nat, other: PoolId)
    requires (forall id :: id in order ==> id in m.pools) && r.preferredPool == None && r.strategy == TopologyAware
    requires Offered(m, order, r, other)
    ensures var choice := Choose(m, order, r, dice).0;
            && choice.Ok? && Offered(m, order, r, choice.value)
            && (HintOffered(m, order, r) ==> m.pools[choice.value].state.config.topologyHint == r.topologyHint)
            && (!HintOffered(m, order, r) ==> Share(m.pools[choice.value]) < Share(m.pools[other]) + 0.00001)
  {
    ChosenIsOffered(m, order, r, dice);
    HintIsFound(m, order, r);
    if !HintOffered(m, order, r) {
      assert other in EligiblePools(m.pools, order, r);
      SharesInOrder(m.pools[Choose(m, order, r, dice).0.value], m.pools[other]);
    }
  }

  /** `Random`: every pool that may be given can be the one. */
  lemma RandomReachesAll(m: Manager, order: seq<PoolId>, r: Request, id: PoolId) returns (dice: nat)
    requires (forall other :: other in order ==> other in m.pools) && r.preferredPool == None && r.strategy == Random
    requires Offered(m, order, r, id)
    ensures Choose(m, order, r, dice).0 == Ok(id)
  {
    var e := EligiblePools(m.pools, order, r);
    assert id in e;
    dice :| dice < |e| && e[dice] == id;
    RemainderIs(dice, |e|, 0, dice);
  }

  // ---------------------------------------------------------------- when the least used pool is found

  /** A request for a least utilised pool, where all the pools it may be given are of one size. */
  ghost predicate Uniform(m: Manager, order: seq<PoolId>, r: Request, n: nat) {
    && (forall id :: id in order ==> id in m.pools) && r.preferredPool == None && r.strategy == LeastUtilized
    && forall id :: id in order && Offered(m, order, r, id) ==> m.pools[id].resources.maxSize == n
  }

  /** The pool chosen, if any, has no more addresses in use than any other that may be given. */
  ghost predicate PicksLeast(m: Manager, order: seq<PoolId>, r: Request, dice: nat)
    requires forall id :: id in order ==> id in m.pools
  {
    var choice := Choose(m, order, r, dice).0;
    choice.Ok? ==>
      && choice.value in m.pools
      && forall id :: id in order && Offered(m, order, r, id) ==>
           InUse(m.pools[choice.value].resources) <= InUse(m.pools[id].resources)
  }

  lemma SmallKeysAreExact(a: nat, b: nat, n: nat)
    requires 0 < n <= 100000 && a * 100000 / n <= b * 100000 / n
    ensures a <= b
  {
    KeysBoundShares(a, n, b, n);
    Ordered(n, 100000, n);
    assert (b * 100000 + 100000) * n == b * 100000 * n + 100000 * n;
    Cancelled(a * 100000, b * 100000 + 100000, n);
  }

  lemma Cancelled(x: nat, y: nat, n: nat)
    requires x * n < y * n
    ensures x < y
  {
    if y <= x {
      Ordered(y, x, n);
    }
  }

  lemma SmallPoolsAreExact(m: Manager, order: seq<PoolId>, r: Request, dice: nat, n: nat)
    requires Uniform(m, order, r, n) && 0 < n <= 100000
    ensures PicksLeast(m, order, r, dice)
  {
    ChosenIsOffered(m, order, r, dice);
    var choice := Choose(m, order, r, dice).0;
    if choice.Ok? {
      forall id | id in order && Offered(m, order, r, id)
        ensures InUse(m.pools[choice.value].resources) <= InUse(m.pools[id].resources)
      {
        assert id in EligiblePools(m.pools, order, r);
        SmallKeysAreExact(InUse(m.pools[choice.value].resources), InUse(m.pools[id].resources), n);
      }
    }
  }

  /** An IPv6 pool of `n` addresses. */
  function Range(n: nat): Config
    requires 0 < n < TWO_64
  {
    Config(0, "", IpNet(V6(0), V6(n)), None, V6(0), [], V6(1), V6(n), None, {}, true, map[])
  }

  /** Two such pools; the first has given out one address, the second none. */
  function OneUsed(n: nat): Manager
    requires 0 < n < TWO_64
  {
    var p := FromState(NewState(Range(n)));
    Empty().(pools := map[0 := Allocate(p, 0).0, 1 := p])
  }

  lemma OneIsUsed(n: nat)
    requires 1 < n < TWO_64
    ensures var pools := OneUsed(n).pools;
            && pools[0].state.config == pools[1].state.config == Range(n)
            && pools[0].resources.maxSize == pools[1].resources.maxSize == n
            && InUse(pools[0].resources) == 1 && InUse(pools[1].resources) == 0
  {
    var c := Range(n);
    assert At(c, 0) == V6(1) && Available(c, {}, At(c, 0));
    assert NextAvailable(c, {}) == Some(V6(1));
  }

  function AskLeastUsed(): Request {
    Request(0, None, map[], None, LeastUtilized, "")
  }

  /** Above 100000 addresses one address in use does not show in the key. */
  lemma LargePoolsMislead(n: nat)
    requires 100000 < n < TWO_64
    ensures Uniform(OneUsed(n), [0, 1], AskLeastUsed(), n)
    ensures Choose(OneUsed(n), [0, 1], AskLeastUsed(), 0).0 == Ok(0)
    ensures !PicksLeast(OneUsed(n), [0, 1], AskLeastUsed(), 0)
  {
    OneIsUsed(n);
    FirstIsPicked(OneUsed(n), n);
  }

  lemma FirstIsPicked(m: Manager, n: nat)
    requires n > 100000 && m.pools.Keys == {0, 1}
    requires forall id :: id in m.pools ==>
               && m.pools[id].resources.maxSize == n && m.pools[id].state.config.enabled
               && InUse(m.pools[id].resources) == if id == 0 then 1 else 0
    ensures Uniform(m, [0, 1], AskLeastUsed(), n)
    ensures Choose(m, [0, 1], AskLeastUsed(), 0).0 == Ok(0) && !PicksLeast(m, [0, 1], AskLeastUsed(), 0)
  {
    var r := AskLeastUsed();
    BothEligible(m.pools, r);
    RoundsToZero(n);
    FirstOfEquals(Usage(m.pools));
    assert Choose(m, [0, 1], r, 0).0 == Ok(0);
    assert Offered(m, [0, 1], r, 1);
  }

  lemma RoundsToZero(n: nat)
    requires n > 100000
    ensures 1 * 100000 / n == 0 && 0 * 100000 / n == 0
  {
  }

  lemma FirstOfEquals(usage: map<PoolId, nat>)
    requires 0 in usage && 1 in usage && usage[0] == usage[1]
    ensures LeastUsed(usage, [0, 1]) == 0
  {
    assert [0, 1][..1] == [0];
  }

  lemma BothEligible(pools: map<PoolId, Pool>, r: Request)
    requires 0 in pools && 1 in pools && Eligible(pools[0], r) && Eligible(pools[1], r)
    ensures EligiblePools(pools, [0, 1], r) == [0, 1]
  {
    assert [0, 1][..1] == [0] && [0][..0] == [];
    assert EligiblePools(pools, [0], r) == [0];
  }

  /** Among pools of one size the least utilised strategy finds one with the fewest addresses in use, in every state,
      exactly when that size is at most 100000. */
  lemma LeastInUseExactlyWhenSmall(n: nat)
    requires 0 < n < TWO_64
    ensures (forall m: Manager, order, r, dice: nat | Uniform(m, order, r, n) :: PicksLeast(m, order, r, dice)) <==> n <= 100000
  {
    if n <= 100000 {
      forall m: Manager, order, r, dice: nat | Uniform(m, order, r, n)
        ensures PicksLeast(m, order, r, dice)
      {
        SmallPoolsAreExact(m, order, r, dice, n);
      }
    } else {
      LargePoolsMislead(n);
    }
  }

  // ---------------------------------------------------------------- round robin

  /** The pools chosen by consecutive requests while the pools stay as they are. */
  function Choices(m: Manager, order: seq<PoolId>, r: Request, count: nat): seq<PoolId>
    requires forall id :: id in order ==> id in m.pools
    decreases count
  {
    if count == 0 then []
    else
      var (choice, counter) := Choose(m, order, r, 0);
      if choice.Err? then [] else [choice.value] + Choices(m.(roundRobin := counter), order, r, count - 1)
  }

  lemma {:induction false} ChoicesAreSelections(m: Manager, order: seq<PoolId>, r: Request, count: nat)
    requires (forall id :: id in order ==> id in m.pools) && r.preferredPool == None && r.strategy == RoundRobin
    requires EligiblePools(m.pools, order, r) != []
    ensures Choices(m, order, r, count) == Selections(EligiblePools(m.pools, order, r), m.roundRobin, count)
    decreases count
  {
    if count > 0 {
      ChoicesAreSelections(m.(roundRobin := Choose(m, order, r, 0).1), order, r, count - 1);
    }
  }

  lemma {:induction false} EligibleOnce(pools: map<PoolId, Pool>, order: seq<PoolId>, r: Request)
    requires (forall id :: id in order ==> id in pools) && NoDuplicates(order)
    ensures NoDuplicates(EligiblePools(pools, order, r))
  {
    if order != [] {
      var front := order[..|order| - 1];
      EligibleOnce(pools, front, r);
      ElementsOfFront(order);
    }
  }

  lemma {:induction false} SizeOfDistinct(s: seq<PoolId>)
    requires NoDuplicates(s)
    ensures |Elements(s)| == |s| && forall id :: id in s ==> multiset(s)[id] == 1
  {
    if s != [] {
      var front, last := s[..|s| - 1], s[|s| - 1];
      ElementsOfFront(s);
      SizeOfDistinct(front);
      OnceMore(s, front, last);
    }
  }

  lemma OnceMore(s: seq<PoolId>, front: seq<PoolId>, last: PoolId)
    requires s == front + [last] && last !in Elements(front) && forall id :: id in front ==> multiset(front)[id] == 1
    ensures forall id :: id in s ==> multiset(s)[id] == 1
  {
    assert multiset(s) == multiset(front) + multiset{last};
    assert last !in multiset(front);
  }

  function OfferedPools(m: Manager, order: seq<PoolId>, r: Request): set<PoolId>
    requires forall id :: id in order ==> id in m.pools
  {
    set id | id in order && Offered(m, order, r, id)
  }

  lemma OfferedAreEligible(m: Manager, order: seq<PoolId>, r: Request)
    requires forall id :: id in order ==> id in m.pools
    ensures Elements(EligiblePools(m.pools, order, r)) == OfferedPools(m, order, r)
  {
  }

  /** `RoundRobin`: while `n` pools may be given, each of them is chosen `k` times in `k * n` requests, from any counter. */
  lemma RoundRobinIsFair(m: Manager, order: seq<PoolId>, r: Request, k: nat, id: PoolId)
    requires (forall other :: other in order ==> other in m.pools) && NoDuplicates(order)
    requires r.preferredPool == None && r.strategy == RoundRobin && id in OfferedPools(m, order, r)
    ensures multiset(Choices(m, order, r, k * |OfferedPools(m, order, r)|))[id] == k
  {
    var e := EligiblePools(m.pools, order, r);
    OfferedAreEligible(m, order, r);
    EligibleOnce(m.pools, order, r);
    SizeOfDistinct(e);
    assert id in Elements(e);
    FairAmong(m, order, r, k, |e|, id);
  }

  lemma FairAmong(m: Manager, order: seq<PoolId>, r: Request, k: nat, n: nat, id: PoolId)
    requires (forall other :: other in order ==> other in m.pools) && r.preferredPool == None && r.strategy == RoundRobin
    requires var e := EligiblePools(m.pools, order, r); |e| == n > 0 && multiset(e)[id] == 1
    ensures multiset(Choices(m, order, r, k * n))[id] == k
  {
    ChoicesAreSelections(m, order, r, k * n);
    EachPoolEquallyOften(EligiblePools(m.pools, order, r), m.roundRobin, k, id);
  }
}
