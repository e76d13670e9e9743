/** The fairness of round-robin pool selection (`ip_pool_manager.rs`). */
module RoundRobinFairness {
  import opened IpSearch
  import opened IpManagerState

  /** The pools chosen by `count` consecutive round-robin selections among the same eligible pools. */
  function Selections(e: seq<PoolId>, counter: nat, count: nat): (s: seq<PoolId>)
    requires e != []
    ensures |s| == count
    decreases count
  {
    if count == 0 then []
    else
      var (id, next) := RoundRobinPick(e, counter);
      [id] + Selections(e, next, count - 1)
  }

  function CounterAfter(e: seq<PoolId>, counter: nat, count: nat): nat
    requires e != []
    decreases count
  {
    if count == 0 then counter else CounterAfter(e, RoundRobinPick(e, counter).1, count - 1)
  }

  lemma AtLeastOnce(k: int, n: nat)
    ensures k >= 1 ==> k * n >= n
    ensures k <= -1 ==> k * n + n <= 0
  {
  }

  lemma RemainderIs(x: nat, n: nat, q: nat, r: nat)
    requires r < n && x == q * n + r
    ensures x % n == r
  {
    var k := x / n - q;
    assert k * n == (x / n) * n - q * n;
    AtLeastOnce(k, n);
  }

  lemma CounterStep(counter: nat, n: nat)
    requires n > 0
    ensures (counter + 1) % n == if counter % n + 1 == n then 0 else counter % n + 1
  {
    var q, r := counter / n, counter % n;
    if r + 1 == n {
      assert (q + 1) * n == q * n + n;
      RemainderIs(counter + 1, n, q + 1, 0);
    } else {
      RemainderIs(counter + 1, n, q, r + 1);
    }
  }

  /** Until the counter wraps, selections run through the list in order. */
  lemma {:induction false} BeforeWrapping(e: seq<PoolId>, counter: nat, r: nat, count: nat)
    requires e != [] && r == counter % |e| && r + count <= |e|
    ensures Selections(e, counter, count) == e[r..r + count]
    ensures r + count == |e| ==> CounterAfter(e, counter, count) == 0
    decreases count
  {
    if count > 0 {
      CounterStep(counter, |e|);
      if r + 1 < |e| {
        RemainderIs(r + 1, |e|, 0, r + 1);
        BeforeWrapping(e, r + 1, r + 1, count - 1);
      }
    }
  }

  lemma {:induction false} SelectionsSplit(e: seq<PoolId>, counter: nat, first: nat, second: nat)
    requires e != []
    ensures Selections(e, counter, first + second) ==
              Selections(e, counter, first) + Selections(e, CounterAfter(e, counter, first), second)
    decreases first
  {
    if first > 0 {
      SelectionsSplit(e, RoundRobinPick(e, counter).1, first - 1, second);
    }
  }

  /** One selection per pool is a rotation of the list. */
  lemma OneCycle(e: seq<PoolId>, counter: nat)
    requires e != []
    ensures var r := counter % |e|; Selections(e, counter, |e|) == e[r..] + e[..r]
  {
    var r := counter % |e|;
    ToTheEnd(e, counter, r);
    FromTheStart(e, r);
    SelectionsSplit(e, counter, |e| - r, r);
  }

  lemma ToTheEnd(e: seq<PoolId>, counter: nat, r: nat)
    requires e != [] && r == counter % |e|
    ensures Selections(e, counter, |e| - r) == e[r..] && CounterAfter(e, counter, |e| - r) == 0
  {
    BeforeWrapping(e, counter, r, |e| - r);
    assert r + (|e| - r) == |e|;
  }

  lemma FromTheStart(e: seq<PoolId>, r: nat)
    requires r < |e|
    ensures Selections(e, 0, r) == e[..r]
  {
    RemainderIs(0, |e|, 0, 0);
    BeforeWrapping(e, 0, 0, r);
  }

  lemma RotationCounts(e: seq<PoolId>, r: nat, id: PoolId)
    requires r <= |e|
    ensures multiset(e[r..] + e[..r])[id] == multiset(e)[id]
  {
    assert e == e[..r] + e[r..];
  }

  /** One selection per pool, then `rest` more. */
  lemma CycleThenRest(e: seq<PoolId>, counter: nat, rest: nat, id: PoolId)
    requires e != []
    ensures multiset(Selections(e, counter, |e| + rest))[id] ==
              multiset(e)[id] + multiset(Selections(e, CounterAfter(e, counter, |e|), rest))[id]
  {
    OneCycle(e, counter);
    RotationCounts(e, counter % |e|, id);
    SelectionsSplit(e, counter, |e|, rest);
  }

  lemma OneMore(k: nat, n: nat)
    requires k > 0
    ensures k * n == n + (k - 1) * n
  {
  }

  /** Over `k` times as many selections as there are eligible pools, from any counter, each pool is chosen
      exactly `k` times. */
  lemma {:induction false} EachPoolEquallyOften(e: seq<PoolId>, counter: nat, k: nat, id: PoolId)
    requires e != [] && multiset(e)[id] == 1
    ensures multiset(Selections(e, counter, k * |e|))[id] == k
    decreases k
  {
    if k > 0 {
      OneMore(k, |e|);
      CycleThenRest(e, counter, (k - 1) * |e|, id);
      EachPoolEquallyOften(e, CounterAfter(e, counter, |e|), k - 1, id);
    } else {
      assert k * |e| == 0;
    }
  }
}
