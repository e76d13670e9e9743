/** IP pool configuration, the search for a free address, and the capacity arithmetic (`ip_pool.rs`). */
module IpSearch {
  import opened Outcomes

  const TWO_32: nat := 0x1_0000_0000
  const TWO_64: nat := 0x1_0000_0000_0000_0000
  const TWO_128: nat := 0x1_0000_0000_0000_0000_0000_0000_0000_0000

  /** The IPv6 search looks at no more than this many addresses. */
  const MAX_ITERATIONS: nat := 10000

  // ---------------------------------------------------------------- addresses and configuration

  datatype RawIp = V4(bits: nat) | V6(bits: nat) {
    function Space(): nat {
      if V4? then TWO_32 else TWO_128
    }
  }

  type IpAddr = ip: RawIp | ip.bits < ip.Space() witness V4(0)

  predicate SameVersion(a: IpAddr, b: IpAddr) {
    a.V4? == b.V4?
  }

  /** A CIDR block, given by its first and last address. */
  datatype IpNet = IpNet(first: IpAddr, last: IpAddr) {
    predicate Contains(ip: IpAddr) {
      SameVersion(first, ip) && SameVersion(last, ip) && first.bits <= ip.bits <= last.bits
    }
  }

  type PoolId = nat

  datatype Config = Config(
    id: PoolId, name: string, subnet: IpNet, vlanId: Option<nat>, gateway: IpAddr,
    dnsServers: seq<IpAddr>, allocationStart: IpAddr, allocationEnd: IpAddr,
    topologyHint: Option<string>, reservedIps: set<IpAddr>, enabled: bool, tags: map<string, string>)

  datatype Error =
    | ConfigurationError(component: string)
    | AlreadyExists
    | NotFound
    | InvalidOperation
    | ResourceExhausted
    | Timeout

  function Validate(c: Config): Option<Error> {
    if !c.subnet.Contains(c.gateway) then Some(ConfigurationError("ip_pool.gateway"))
    else if !c.subnet.Contains(c.allocationStart) then Some(ConfigurationError("ip_pool.allocation_start"))
    else if !c.subnet.Contains(c.allocationEnd) then Some(ConfigurationError("ip_pool.allocation_end"))
    else if !SameVersion(c.allocationStart, c.allocationEnd) then Some(ConfigurationError("ip_pool.allocation_range"))
    else if c.allocationStart.bits > c.allocationEnd.bits then Some(ConfigurationError("ip_pool.allocation_range"))
    else if exists ip :: ip in c.reservedIps && !c.subnet.Contains(ip) then
      Some(ConfigurationError("ip_pool.reserved_ips"))
    else if c.vlanId.Some? && (c.vlanId.value == 0 || c.vlanId.value > 4094) then
      Some(ConfigurationError("ip_pool.vlan_id"))
    else None
  }

  predicate Validated(c: Config) {
    Validate(c) == None
  }

  /** `end - start + 1` in the address type's own width, as an optimised build computes it. */
  function RangeLength(c: Config): nat {
    var n := c.allocationEnd.bits - c.allocationStart.bits + 1;
    if c.allocationStart.V4? then n % TWO_32 else n % TWO_128
  }

  /** `total_capacity`: range length less the number of reserved addresses, in 64-bit arithmetic. */
  function TotalCapacity(c: Config): nat {
    if !SameVersion(c.allocationStart, c.allocationEnd) then 0
    else if c.allocationStart.V4? then (RangeLength(c) - |c.reservedIps|) % TWO_64
    else ((if RangeLength(c) < TWO_64 then RangeLength(c) else TWO_64 - 1) - |c.reservedIps|) % TWO_64
  }

  // ---------------------------------------------------------------- the address search

  /** How many addresses the search looks at: the whole range for IPv4, a bounded part for IPv6. */
  function SearchCount(c: Config): nat {
    if !SameVersion(c.allocationStart, c.allocationEnd) then 0
    else if c.allocationStart.V4? then
      if c.allocationStart.bits <= c.allocationEnd.bits then c.allocationEnd.bits - c.allocationStart.bits + 1 else 0
    else if RangeLength(c) < MAX_ITERATIONS then RangeLength(c) else MAX_ITERATIONS
  }

  function At(c: Config, i: nat): IpAddr {
    var bits := (c.allocationStart.bits + i) % c.allocationStart.Space();
    if c.allocationStart.V4? then V4(bits) else V6(bits)
  }

  predicate Available(c: Config, taken: set<IpAddr>, ip: IpAddr) {
    ip !in taken && ip !in c.reservedIps && c.subnet.Contains(ip) && ip != c.gateway
  }

  function NextFrom(c: Config, taken: set<IpAddr>, i: nat): Option<IpAddr>
    decreases SearchCount(c) - i
  {
    if i >= SearchCount(c) then None
    else if Available(c, taken, At(c, i)) then Some(At(c, i))
    else NextFrom(c, taken, i + 1)
  }

  function NextAvailable(c: Config, taken: set<IpAddr>): Option<IpAddr> {
    NextFrom(c, taken, 0)
  }

  /** The addresses the search may ever return. */
  function Usable(c: Config): set<IpAddr> {
    set i: nat | i < SearchCount(c) && Available(c, {}, At(c, i)) :: At(c, i)
  }

  function Window(c: Config): set<IpAddr> {
    set i: nat | i < SearchCount(c) :: At(c, i)
  }

  /** The loop of `find_next_available_ip` and of `next_available_ip`. */
  method FindNextAvailable(c: Config, taken: set<IpAddr>) returns (r: Option<IpAddr>)
    ensures r == NextAvailable(c, taken)
    ensures Validated(c) ==> (r == None <==> Usable(c) <= taken)
    ensures Validated(c) && r.Some? ==>
              r.value in Usable(c) - taken && forall ip :: ip in Usable(c) - taken ==> r.value.bits <= ip.bits
  {
    if Validated(c) {
      SearchIsLeast(c, taken);
    }
    var i := 0;
    while i < SearchCount(c)
      invariant 0 <= i <= SearchCount(c)
      invariant NextAvailable(c, taken) == NextFrom(c, taken, i)
    {
      if Available(c, taken, At(c, i)) {
        return Some(At(c, i));
      }
      i := i + 1;
    }
    r := None;
  }

  lemma {:induction false} NextFromFinds(c: Config, taken: set<IpAddr>, i: nat)
    requires i <= SearchCount(c)
    ensures NextFrom(c, taken, i) == None ==>
              forall k: nat :: i <= k < SearchCount(c) ==> !Available(c, taken, At(c, k))
    ensures NextFrom(c, taken, i).Some? ==>
              exists k: nat :: i <= k < SearchCount(c) && NextFrom(c, taken, i).value == At(c, k)
                && Available(c, taken, At(c, k)) && forall j: nat :: i <= j < k ==> !Available(c, taken, At(c, j))
    decreases SearchCount(c) - i
  {
    if i < SearchCount(c) && !Available(c, taken, At(c, i)) {
      NextFromFinds(c, taken, i + 1);
    }
  }

  /** In a validated configuration the scan is strictly increasing and never wraps. */
  lemma AtIsIncreasing(c: Config, i: nat)
    requires Validated(c) && i < SearchCount(c)
    ensures At(c, i).bits == c.allocationStart.bits + i
    ensures At(c, i).V4? == c.allocationStart.V4?
  {
  }

  /** The search returns the least address of the window that is free, and fails only when none is. */
  lemma SearchIsLeast(c: Config, taken: set<IpAddr>)
    requires Validated(c)
    ensures NextAvailable(c, taken) == None <==> Usable(c) <= taken
    ensures NextAvailable(c, taken).Some? ==>
              NextAvailable(c, taken).value in Usable(c) - taken
              && forall ip :: ip in Usable(c) - taken ==> NextAvailable(c, taken).value.bits <= ip.bits
  {
    NextFromFinds(c, taken, 0);
    forall ip | ip in Usable(c) - taken
      ensures NextAvailable(c, taken).Some? && NextAvailable(c, taken).value.bits <= ip.bits
    {
      var i: nat :| i < SearchCount(c) && Available(c, {}, At(c, i)) && ip == At(c, i);
      assert Available(c, taken, At(c, i));
      AtIsIncreasing(c, i);
      var k: nat :| k < SearchCount(c) && NextAvailable(c, taken).value == At(c, k)
        && forall j: nat :: j < k ==> !Available(c, taken, At(c, j));
      AtIsIncreasing(c, k);
    }
  }

  // ---------------------------------------------------------------- capacity arithmetic

  /** 1 when the gateway sits in the searched window without being reserved, else 0. */
  function GatewayCost(c: Config): nat {
    if c.gateway in Window(c) && c.gateway !in c.reservedIps then 1 else 0
  }

  predicate WholeIpv4Space(c: Config) {
    c.allocationStart.bits == 0 && c.allocationEnd.bits == TWO_32 - 1
  }

  lemma {:induction false} PrefixSize(c: Config, n: nat)
    requires Validated(c) && n <= SearchCount(c)
    ensures |set i: nat | i < n :: At(c, i)| == n
  {
    if n > 0 {
      PrefixSize(c, n - 1);
      var before := set i: nat | i < n - 1 :: At(c, i);
      AtIsIncreasing(c, n - 1);
      forall i: nat | i < n - 1
        ensures At(c, i) != At(c, n - 1)
      {
        AtIsIncreasing(c, i);
      }
      assert (set i: nat | i < n :: At(c, i)) == before + {At(c, n - 1)};
    }
  }

  lemma WindowInSubnet(c: Config, ip: IpAddr)
    requires Validated(c) && ip in Window(c)
    ensures c.subnet.Contains(ip)
  {
    var i: nat :| i < SearchCount(c) && ip == At(c, i);
    AtIsIncreasing(c, i);
  }

  /** The number of addresses that can ever be handed out, by counting. */
  lemma UsableSize(c: Config)
    requires Validated(c)
    ensures |Usable(c)| == SearchCount(c) - |c.reservedIps * Window(c)| - GatewayCost(c)
  {
    PrefixSize(c, SearchCount(c));
    var w := Window(c);
    forall ip | ip in w
      ensures c.subnet.Contains(ip)
    {
      WindowInSubnet(c, ip);
    }
    assert Usable(c) == w - c.reservedIps - {c.gateway};
    assert w - c.reservedIps == w - c.reservedIps * w;
  }

  lemma {:induction false} BitsBound(s: set<IpAddr>, n: nat)
    requires forall ip :: ip in s ==> ip.V4? && ip.bits < n
    ensures |s| <= n
  {
    if n > 0 {
      var top := set ip | ip in s && ip.bits == n - 1;
      assert top <= {V4(n - 1)};
      assert |top| <= |{V4(n - 1)}| by {
        SubsetSize(top, {V4(n - 1)});
      }
      BitsBound(s - top, n - 1);
      assert |s| == |s - top| + |top|;
    } else {
      assert s == {};
    }
  }

  lemma SubsetSize<T>(a: set<T>, b: set<T>)
    requires a <= b
    ensures |a| <= |b|
    ensures |a| == |b| ==> a == b
  {
    assert b == a + (b - a);
  }

  lemma ReservedSize(c: Config)
    requires Validated(c) && c.allocationStart.V4?
    ensures |c.reservedIps| <= TWO_32
    ensures |c.reservedIps| == |c.reservedIps * Window(c)| + |c.reservedIps - Window(c)|
    ensures |c.reservedIps * Window(c)| <= SearchCount(c)
    ensures |c.reservedIps * Window(c)| == SearchCount(c) ==> GatewayCost(c) == 0
  {
    var r, w := c.reservedIps, Window(c);
    assert r == r * w + (r - w);
    forall ip | ip in r
      ensures ip.V4? && ip.bits < TWO_32
    {
      assert c.subnet.Contains(ip);
    }
    BitsBound(r, TWO_32);
    PrefixSize(c, SearchCount(c));
    SubsetSize(r * w, w);
  }

  lemma CapacityValue(c: Config)
    requires Validated(c) && c.allocationStart.V4? && |c.reservedIps| <= TWO_32
    ensures var len, r := SearchCount(c), |c.reservedIps|;
            TotalCapacity(c) ==
              if WholeIpv4Space(c) then (if r == 0 then 0 else TWO_64 - r)
              else if r <= len then len - r
              else TWO_64 + len - r
  {
  }

  /** Exactly when `total_capacity` of an IPv4 pool is the number of addresses the pool can hand out:
      the range is not the whole address space, and the reserved addresses outside the range are as
      many as the unreserved gateways inside it (0 or 1). */
  lemma CapacityIsUsableCount(c: Config)
    requires Validated(c) && c.allocationStart.V4?
    ensures TotalCapacity(c) == |Usable(c)| <==>
              !WholeIpv4Space(c) && |c.reservedIps - Window(c)| == GatewayCost(c)
  {
    UsableSize(c);
    ReservedSize(c);
    CapacityValue(c);
  }

  /** A two-address pool whose gateway is one of them and not reserved: it counts two addresses and can hand out one. */
  lemma GatewayIsCounted() returns (c: Config)
    ensures Validated(c) && TotalCapacity(c) == 2 && |Usable(c)| == 1
  {
    c := Config(1, "", IpNet(V4(0), V4(9)), None, V4(2), [], V4(2), V4(3), None, {}, true, map[]);
    assert SearchCount(c) == 2 && At(c, 0) == V4(2) && At(c, 1) == V4(3);
    UsableSize(c);
  }

  // ---------------------------------------------------------------- IPv6

  /** The addresses that `total_capacity` counts and the bounded search never looks at. */
  function Unsearched(c: Config): nat
    requires Validated(c) && c.allocationStart.V6?
  {
    (if RangeLength(c) < TWO_64 then RangeLength(c) else TWO_64 - 1) - SearchCount(c)
  }

  lemma MultipleIsLarge(k: int, m: int)
    requires m > 0
    ensures k >= 1 ==> k * m >= m
    ensures k <= -1 ==> k * m <= 0 - m
  {
  }

  /** Nothing but zero is a multiple of `m` and smaller than it. */
  lemma BetweenMultiples(k: int, m: int, d: int)
    requires k * m == d && 0 - m < d < m
    ensures d == 0
  {
    MultipleIsLarge(k, m);
  }

  lemma SmallMultiple(d: int)
    requires 0 - TWO_64 < d < TWO_64
    ensures d % TWO_64 == 0 <==> d == 0
  {
  }

  lemma Ipv6Sizes(c: Config)
    requires Validated(c) && c.allocationStart.V6?
    ensures |Usable(c)| == SearchCount(c) - |c.reservedIps * Window(c)| - GatewayCost(c) < TWO_64
    ensures |c.reservedIps| == |c.reservedIps * Window(c)| + |c.reservedIps - Window(c)|
    ensures Unsearched(c) + GatewayCost(c) < TWO_64
  {
    UsableSize(c);
    SplitSize(c.reservedIps, Window(c));
    Ipv6Bounds(c);
  }

  lemma SplitSize(r: set<IpAddr>, w: set<IpAddr>)
    ensures |r| == |r * w| + |r - w|
  {
    assert r == r * w + (r - w);
  }

  lemma Ipv6Bounds(c: Config)
    requires Validated(c) && c.allocationStart.V6?
    ensures SearchCount(c) < TWO_64 && Unsearched(c) + GatewayCost(c) < TWO_64
  {
    assert SearchCount(c) == 0 ==> Window(c) == {};
  }

  /** What an IPv6 pool counts beyond what it can hand out. */
  function Excess(c: Config): int
    requires Validated(c) && c.allocationStart.V6?
  {
    Unsearched(c) + GatewayCost(c) - |c.reservedIps - Window(c)|
  }

  /** The capacity is off by the excess, up to the wrap-around of 64-bit arithmetic. */
  lemma Ipv6CapacityIsOffByExcess(c: Config) returns (k: int)
    requires Validated(c) && c.allocationStart.V6?
    ensures TotalCapacity(c) == |Usable(c)| + Excess(c) + k * TWO_64
    ensures 0 <= TotalCapacity(c) < TWO_64 && |Usable(c)| < TWO_64
  {
    Ipv6Sizes(c);
    var d := Unsearched(c) + SearchCount(c) - |c.reservedIps|;
    k := 0 - d / TWO_64;
    Ipv6Capacity(c);
  }

  lemma Ipv6Capacity(c: Config)
    requires Validated(c) && c.allocationStart.V6?
    ensures TotalCapacity(c) == (Unsearched(c) + SearchCount(c) - |c.reservedIps|) % TWO_64
  {
  }

  lemma SameUpToWrap(t: nat, u: nat, d: int, k: int)
    requires t == u + d + k * TWO_64 && t < TWO_64 && u < TWO_64
    ensures t == u <==> d % TWO_64 == 0
  {
    var q := d / TWO_64;
    assert d == q * TWO_64 + d % TWO_64;
    if d % TWO_64 == 0 {
      BetweenMultiples(q + k, TWO_64, t - u);
    }
  }

  /** Exactly when `total_capacity` of an IPv6 pool is the number of addresses the pool can hand out: the reserved addresses
      outside the searched window are as many, up to multiples of 2^64, as the counted addresses beyond it and the
      unreserved gateways inside it. */
  lemma Ipv6CapacityIsUsableCount(c: Config)
    requires Validated(c) && c.allocationStart.V6?
    ensures TotalCapacity(c) == |Usable(c)| <==> Excess(c) % TWO_64 == 0
  {
    var k := Ipv6CapacityIsOffByExcess(c);
    SameUpToWrap(TotalCapacity(c), |Usable(c)|, Excess(c), k);
  }

  /** Unless more addresses are reserved than 64 bits can count, they are exactly as many. */
  lemma Ipv6ExcessIsZero(c: Config)
    requires Validated(c) && c.allocationStart.V6? && |c.reservedIps| < TWO_64
    ensures Excess(c) % TWO_64 == 0 <==> |c.reservedIps - Window(c)| == Unsearched(c) + GatewayCost(c)
  {
    Ipv6Sizes(c);
    SmallMultiple(Excess(c));
  }

  /** An IPv6 range one address longer than the search: it counts 10001 addresses and can hand out 10000. */
  lemma SearchFallsShort() returns (c: Config)
    ensures Validated(c) && TotalCapacity(c) == MAX_ITERATIONS + 1 && |Usable(c)| == MAX_ITERATIONS
  {
    var start, end: IpAddr := V6(16), V6(16 + MAX_ITERATIONS);
    c := Config(1, "", IpNet(V6(0), V6(65535)), None, V6(1), [], start, end, None, {}, true, map[]);
    UsableSize(c);
    forall i: nat | i < SearchCount(c)
      ensures At(c, i) != c.gateway
    {
      AtIsIncreasing(c, i);
    }
  }
}
