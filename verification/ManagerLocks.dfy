/** The locks of the IP pool manager (`ip_pool_manager.rs`): which operations, run together, can wait for each other for
    ever. */
module ManagerLocks {

  datatype Lock = Pools | Allocations | Lists | Counter

  datatype Need = Need(lock: Lock, write: bool)

  /** The manager's operations by the locks they take; a commit that fails stops after the first. */
  datatype Op = Load | Command | Choose | ChooseInTurn | Commit | FailedCommit | Release | ReadPools | ReadVm

  /** The locks an operation takes, in order, and keeps until it ends. */
  function Plan(op: Op): seq<Need> {
    match op
    case Load => [Need(Pools, true), Need(Allocations, true), Need(Lists, true)]
    case Command => [Need(Pools, true)]
    case Choose => [Need(Pools, false)]
    case ChooseInTurn => [Need(Pools, false), Need(Counter, true)]
    case Commit => [Need(Pools, true), Need(Allocations, true), Need(Lists, true)]
    case FailedCommit => [Need(Pools, true)]
    case Release => [Need(Allocations, true), Need(Lists, true), Need(Pools, true)]
    case ReadPools => [Need(Pools, false)]
    case ReadVm => [Need(Allocations, false), Need(Lists, false)]
  }

  predicate Conflict(a: Need, b: Need) {
    a.lock == b.lock && (a.write || b.write)
  }

  // ---------------------------------------------------------------- threads

  /** How many of its locks each running thread has; a thread that has ended is gone. */
  type State = map<nat, nat>

  predicate WellFormed(ops: map<nat, Op>, w: State) {
    forall t :: t in w ==> t in ops && w[t] <= |Plan(ops[t])|
  }

  predicate Holds(ops: map<nat, Op>, w: State, t: nat, need: Need)
    requires WellFormed(ops, w)
  {
    t in w && need in Plan(ops[t])[..w[t]]
  }

  predicate Wants(ops: map<nat, Op>, w: State, t: nat, need: Need)
    requires WellFormed(ops, w)
  {
    t in w && w[t] < |Plan(ops[t])| && Plan(ops[t])[w[t]] == need
  }

  ghost predicate WaitsFor(ops: map<nat, Op>, w: State, t: nat, u: nat)
    requires WellFormed(ops, w)
  {
    exists a, b :: Wants(ops, w, t, a) && Holds(ops, w, u, b) && Conflict(a, b)
  }

  /** Each thread waits for the one that follows it. */
  ghost predicate Chain(ops: map<nat, Op>, w: State, threads: seq<nat>)
    requires WellFormed(ops, w)
  {
    forall i :: 0 <= i < |threads| - 1 ==> WaitsFor(ops, w, threads[i], threads[i + 1])
  }

  /** A chain that ends where it began. */
  ghost predicate Deadlocked(ops: map<nat, Op>, w: State, ring: seq<nat>)
    requires WellFormed(ops, w)
  {
    |ring| >= 2 && ring[0] == ring[|ring| - 1] && Chain(ops, w, ring)
  }

  datatype Event = Acquire(t: nat) | End(t: nat)

  ghost predicate Enabled(ops: map<nat, Op>, w: State, ev: Event) {
    && WellFormed(ops, w) && ev.t in w
    && match ev
       case Acquire(t) => w[t] < |Plan(ops[t])| && forall u :: !WaitsFor(ops, w, t, u)
       case End(t) => w[t] == |Plan(ops[t])|
  }

  function Next(w: State, ev: Event): State
    requires ev.t in w
  {
    match ev
    case Acquire(t) => w[t := w[t] + 1]
    case End(t) => w - {t}
  }

  ghost predicate EnabledRun(ops: map<nat, Op>, w: State, events: seq<Event>)
    decreases |events|
  {
    events == [] || (Enabled(ops, w, events[0]) && EnabledRun(ops, Next(w, events[0]), events[1..]))
  }

  ghost function After(ops: map<nat, Op>, w: State, events: seq<Event>): State
    requires EnabledRun(ops, w, events)
    decreases |events|
  {
    if events == [] then w else After(ops, Next(w, events[0]), events[1..])
  }

  function Start(ops: map<nat, Op>): State {
    map t | t in ops :: 0
  }

  lemma {:induction false} RunsAreWellFormed(ops: map<nat, Op>, w: State, events: seq<Event>)
    requires WellFormed(ops, w) && EnabledRun(ops, w, events)
    ensures WellFormed(ops, After(ops, w, events))
    decreases |events|
  {
    if events != [] {
      RunsAreWellFormed(ops, Next(w, events[0]), events[1..]);
    }
  }

  // ---------------------------------------------------------------- one order, no deadlock

  /** The order of every operation but release. */
  function PoolsFirst(l: Lock): nat {
    match l
    case Pools => 0
    case Allocations => 1
    case Lists => 2
    case Counter => 3
  }

  /** The order of release, and of every operation that takes pools or the other two alone. */
  function PoolsLast(l: Lock): nat {
    match l
    case Allocations => 0
    case Lists => 1
    case Pools => 2
    case Counter => 3
  }

  ghost predicate InOrder(rank: Lock -> nat, plan: seq<Need>) {
    forall i, j :: 0 <= i < j < |plan| ==> rank(plan[i].lock) < rank(plan[j].lock)
  }

  /** A thread waits only for one that waits for a later lock. */
  lemma WaitsForLater(ops: map<nat, Op>, w: State, rank: Lock -> nat, t: nat, u: nat, a: Need, b: Need)
    requires WellFormed(ops, w) && WaitsFor(ops, w, t, u) && Wants(ops, w, t, a) && Wants(ops, w, u, b)
    requires InOrder(rank, Plan(ops[u]))
    ensures rank(a.lock) < rank(b.lock)
  {
    var c, d :| Wants(ops, w, t, c) && Holds(ops, w, u, d) && Conflict(c, d);
    var i :| 0 <= i < w[u] && Plan(ops[u])[i] == d;
    assert Plan(ops[u])[w[u]] == b;
  }

  lemma Wanted(ops: map<nat, Op>, w: State, t: nat, u: nat) returns (need: Need)
    requires WellFormed(ops, w) && WaitsFor(ops, w, t, u)
    ensures Wants(ops, w, t, need)
  {
    var a, b :| Wants(ops, w, t, a) && Holds(ops, w, u, b) && Conflict(a, b);
    need := a;
  }

  /** Along threads that wait for each other the locks waited for come later and later. */
  lemma {:induction false} RanksClimb(ops: map<nat, Op>, w: State, rank: Lock -> nat, threads: seq<nat>, a: Need, b: Need)
    requires WellFormed(ops, w) && (forall u :: u in w ==> InOrder(rank, Plan(ops[u])))
    requires |threads| >= 2 && Chain(ops, w, threads)
    requires Wants(ops, w, threads[0], a) && Wants(ops, w, threads[|threads| - 1], b)
    ensures rank(a.lock) < rank(b.lock)
  {
    assert WaitsFor(ops, w, threads[0], threads[0 + 1]);
    if |threads| == 2 {
      WaitsForLater(ops, w, rank, threads[0], threads[1], a, b);
    } else {
      assert WaitsFor(ops, w, threads[1], threads[1 + 1]);
      var next := Wanted(ops, w, threads[1], threads[2]);
      WaitsForLater(ops, w, rank, threads[0], threads[1], a, next);
      RestOfChain(ops, w, threads);
      RanksClimb(ops, w, rank, threads[1..], next, b);
    }
  }

  lemma RestOfChain(ops: map<nat, Op>, w: State, threads: seq<nat>)
    requires WellFormed(ops, w) && threads != [] && Chain(ops, w, threads)
    ensures Chain(ops, w, threads[1..])
  {
    forall i | 0 <= i < |threads[1..]| - 1
      ensures WaitsFor(ops, w, threads[1..][i], threads[1..][i + 1])
    {
      assert WaitsFor(ops, w, threads[i + 1], threads[i + 1 + 1]);
    }
  }

  /** Threads that take their locks in one order are never stuck, in any state whatever. */
  lemma OneOrderIsSafe(ops: map<nat, Op>, w: State, rank: Lock -> nat, ring: seq<nat>)
    requires WellFormed(ops, w) && forall u :: u in w ==> InOrder(rank, Plan(ops[u]))
    ensures !Deadlocked(ops, w, ring)
  {
    if Deadlocked(ops, w, ring) {
      assert WaitsFor(ops, w, ring[0], ring[0 + 1]);
      var need := Wanted(ops, w, ring[0], ring[1]);
      RanksClimb(ops, w, rank, ring, need, need);
    }
  }

  // ---------------------------------------------------------------- two orders

  /** The threads include a release, and a commit or a load. */
  predicate OrdersMeet(ops: map<nat, Op>) {
    (exists a :: a in ops && ops[a] == Release) && exists b :: b in ops && (ops[b] == Commit || ops[b] == Load)
  }

  lemma MeetOrSafe(ops: map<nat, Op>, w: State, ring: seq<nat>)
    requires WellFormed(ops, w) && !OrdersMeet(ops)
    ensures !Deadlocked(ops, w, ring)
  {
    if forall a :: a in ops ==> ops[a] != Release {
      OneOrderIsSafe(ops, w, PoolsFirst, ring);
    } else {
      OneOrderIsSafe(ops, w, PoolsLast, ring);
    }
  }

  lemma NobodyInTheWay(ops: map<nat, Op>, w: State, t: nat, need: Need)
    requires WellFormed(ops, w) && Wants(ops, w, t, need)
    requires forall u, b :: Holds(ops, w, u, b) ==> b.lock != need.lock
    ensures Enabled(ops, w, Acquire(t))
  {
  }

  /** The commit has the pools, the release the records and the lists: each waits for the other. */
  function Crossed(ops: map<nat, Op>, release: nat, commit: nat): State {
    Start(ops)[commit := 1][release := 2]
  }

  lemma CrossedRun(ops: map<nat, Op>, release: nat, commit: nat)
    requires release in ops && ops[release] == Release && commit in ops && (ops[commit] == Commit || ops[commit] == Load)
    ensures var events := [Acquire(commit), Acquire(release), Acquire(release)];
            EnabledRun(ops, Start(ops), events) && After(ops, Start(ops), events) == Crossed(ops, release, commit)
  {
    var events := [Acquire(commit), Acquire(release), Acquire(release)];
    CrossedSteps(ops, release, commit);
    var w0 := Start(ops);
    ThreeSteps(ops, w0, w0[commit := 1], w0[commit := 1][release := 1], Crossed(ops, release, commit), events);
  }

  /** A run of three events, from its steps. */
  lemma ThreeSteps(ops: map<nat, Op>, w0: State, w1: State, w2: State, w3: State, events: seq<Event>)
    requires |events| == 3
    requires Enabled(ops, w0, events[0]) && w1 == Next(w0, events[0])
    requires Enabled(ops, w1, events[1]) && w2 == Next(w1, events[1])
    requires Enabled(ops, w2, events[2]) && w3 == Next(w2, events[2])
    ensures EnabledRun(ops, w0, events) && After(ops, w0, events) == w3
  {
    assert events[1..][1..] == events[2..] && events[2..][1..] == [];
    assert EnabledRun(ops, w3, []) && After(ops, w3, []) == w3;
    assert EnabledRun(ops, w2, events[2..]) && After(ops, w2, events[2..]) == w3;
    assert EnabledRun(ops, w1, events[1..]) && After(ops, w1, events[1..]) == w3;
  }

  lemma CrossedSteps(ops: map<nat, Op>, release: nat, commit: nat)
    requires release in ops && ops[release] == Release && commit in ops && (ops[commit] == Commit || ops[commit] == Load)
    ensures var w0 := Start(ops);
            var w1 := w0[commit := 1];
            var w2 := w1[release := 1];
            && Enabled(ops, w0, Acquire(commit)) && w1 == Next(w0, Acquire(commit))
            && Enabled(ops, w1, Acquire(release)) && w2 == Next(w1, Acquire(release))
            && Enabled(ops, w2, Acquire(release)) && Crossed(ops, release, commit) == Next(w2, Acquire(release))
  {
    var w0 := Start(ops);
    NobodyInTheWay(ops, w0, commit, Need(Pools, true));
    var w1 := w0[commit := 1];
    assert Plan(ops[commit])[..1] == [Need(Pools, true)];
    NobodyInTheWay(ops, w1, release, Need(Allocations, true));
    var w2 := w1[release := 1];
    assert Plan(Release)[..1] == [Need(Allocations, true)];
    NobodyInTheWay(ops, w2, release, Need(Lists, true));
  }

  lemma CrossedIsDeadlocked(ops: map<nat, Op>, release: nat, commit: nat)
    requires release in ops && ops[release] == Release && commit in ops && (ops[commit] == Commit || ops[commit] == Load)
    ensures WellFormed(ops, Crossed(ops, release, commit)) && Deadlocked(ops, Crossed(ops, release, commit), [release, commit, release])
  {
    var w := Crossed(ops, release, commit);
    assert Plan(ops[commit])[..1][0] == Need(Pools, true);
    assert Plan(Release)[..2][0] == Need(Allocations, true);
    assert Wants(ops, w, release, Need(Pools, true)) && Holds(ops, w, commit, Need(Pools, true));
    assert Wants(ops, w, commit, Need(Allocations, true)) && Holds(ops, w, release, Need(Allocations, true));
    assert WaitsFor(ops, w, release, commit) && WaitsFor(ops, w, commit, release);
  }

  ghost predicate CanDeadlock(ops: map<nat, Op>) {
    exists events, ring :: EnabledRun(ops, Start(ops), events)
                           && WellFormed(ops, After(ops, Start(ops), events))
                           && Deadlocked(ops, After(ops, Start(ops), events), ring)
  }

  /** Some interleaving of the operations leaves threads waiting for each other exactly when there is a release among them,
      and a commit or a load. */
  lemma DeadlockExactlyWhenOrdersMeet(ops: map<nat, Op>)
    ensures CanDeadlock(ops) <==> OrdersMeet(ops)
  {
    if OrdersMeet(ops) {
      var a :| a in ops && ops[a] == Release;
      var b :| b in ops && (ops[b] == Commit || ops[b] == Load);
      CrossedRun(ops, a, b);
      CrossedIsDeadlocked(ops, a, b);
    } else {
      forall events, ring | EnabledRun(ops, Start(ops), events) && WellFormed(ops, After(ops, Start(ops), events))
        ensures !Deadlocked(ops, After(ops, Start(ops), events), ring)
      {
        MeetOrSafe(ops, After(ops, Start(ops), events), ring);
      }
    }
  }

  lemma StillWaits(ops: map<nat, Op>, w: State, x: State, t: nat, u: nat)
    requires WellFormed(ops, w) && WellFormed(ops, x) && WaitsFor(ops, w, t, u)
    requires t in x && x[t] == w[t] && u in x && x[u] == w[u]
    ensures WaitsFor(ops, x, t, u)
  {
    var a, b :| Wants(ops, w, t, a) && Holds(ops, w, u, b) && Conflict(a, b);
    assert Wants(ops, x, t, a) && Holds(ops, x, u, b);
  }

  lemma WaitingIsStuck(ops: map<nat, Op>, w: State, t: nat, u: nat, ev: Event)
    requires WellFormed(ops, w) && WaitsFor(ops, w, t, u) && Enabled(ops, w, ev)
    ensures t in w && u in w && ev.t != t
  {
  }

  lemma RingIsStuck(ops: map<nat, Op>, w: State, ring: seq<nat>, ev: Event, i: nat)
    requires WellFormed(ops, w) && Deadlocked(ops, w, ring) && Enabled(ops, w, ev) && i < |ring|
    ensures ring[i] in w && ev.t != ring[i]
  {
    var j := if i < |ring| - 1 then i else 0;
    assert WaitsFor(ops, w, ring[j], ring[j + 1]);
    WaitingIsStuck(ops, w, ring[j], ring[j + 1], ev);
  }

  lemma StuckStep(ops: map<nat, Op>, w: State, ring: seq<nat>, ev: Event)
    requires WellFormed(ops, w) && Deadlocked(ops, w, ring) && Enabled(ops, w, ev)
    ensures WellFormed(ops, Next(w, ev)) && Deadlocked(ops, Next(w, ev), ring) && ev.t !in ring
  {
    var x := Next(w, ev);
    forall i | 0 <= i < |ring|
      ensures ring[i] in w && ev.t != ring[i]
    {
      RingIsStuck(ops, w, ring, ev, i);
    }
    forall i | 0 <= i < |ring| - 1
      ensures WaitsFor(ops, x, ring[i], ring[i + 1])
    {
      StillWaits(ops, w, x, ring[i], ring[i + 1]);
    }
  }

  /** And they wait for ever: whatever the other threads do, none of them takes another step. */
  lemma {:induction false} DeadlockIsForever(ops: map<nat, Op>, w: State, ring: seq<nat>, events: seq<Event>)
    requires WellFormed(ops, w) && Deadlocked(ops, w, ring) && EnabledRun(ops, w, events)
    ensures WellFormed(ops, After(ops, w, events)) && Deadlocked(ops, After(ops, w, events), ring)
    ensures forall ev :: ev in events ==> ev.t !in ring
    decreases |events|
  {
    if events != [] {
      StuckStep(ops, w, ring, events[0]);
      DeadlockIsForever(ops, Next(w, events[0]), ring, events[1..]);
      assert events == [events[0]] + events[1..];
    }
  }

  // ---------------------------------------------------------------- what may happen at the same time

  /** No lock is held by two threads, unless both only read. */
  ghost predicate Exclusive(ops: map<nat, Op>, w: State)
    requires WellFormed(ops, w)
  {
    forall t, u, a, b :: t != u && Holds(ops, w, t, a) && Holds(ops, w, u, b) && a.lock == b.lock ==> !a.write && !b.write
  }

  lemma HoldsAfterAcquire(ops: map<nat, Op>, w: State, t: nat, u: nat, need: Need)
    requires WellFormed(ops, w) && Enabled(ops, w, Acquire(t)) && WellFormed(ops, Next(w, Acquire(t)))
    ensures Holds(ops, Next(w, Acquire(t)), u, need) <==> Holds(ops, w, u, need) || (u == t && Wants(ops, w, t, need))
  {
    var plan := Plan(ops[t]);
    assert plan[..w[t] + 1] == plan[..w[t]] + [plan[w[t]]];
  }

  lemma StepKeepsExclusive(ops: map<nat, Op>, w: State, ev: Event)
    requires Enabled(ops, w, ev) && Exclusive(ops, w) && WellFormed(ops, Next(w, ev))
    ensures Exclusive(ops, Next(w, ev))
  {
    var x := Next(w, ev);
    forall t, u, a, b | t != u && Holds(ops, x, t, a) && Holds(ops, x, u, b) && a.lock == b.lock
      ensures !a.write && !b.write
    {
      if ev.Acquire? {
        AcquiredApart(ops, w, ev.t, t, u, a, b);
      } else {
        assert Holds(ops, w, t, a) && Holds(ops, w, u, b);
      }
    }
  }

  lemma AcquiredApart(ops: map<nat, Op>, w: State, s: nat, t: nat, u: nat, a: Need, b: Need)
    requires Enabled(ops, w, Acquire(s)) && Exclusive(ops, w) && WellFormed(ops, Next(w, Acquire(s))) && t != u
    requires Holds(ops, Next(w, Acquire(s)), t, a) && Holds(ops, Next(w, Acquire(s)), u, b) && a.lock == b.lock
    ensures !a.write && !b.write
  {
    HoldsAfterAcquire(ops, w, s, t, a);
    HoldsAfterAcquire(ops, w, s, u, b);
    if Holds(ops, w, t, a) && Holds(ops, w, u, b) {
    } else if Holds(ops, w, t, a) {
      assert !WaitsFor(ops, w, s, t);
      assert !(Wants(ops, w, s, b) && Holds(ops, w, t, a) && Conflict(b, a));
    } else {
      assert !WaitsFor(ops, w, s, u);
      assert !(Wants(ops, w, s, a) && Holds(ops, w, u, b) && Conflict(a, b));
    }
  }

  lemma {:induction false} RunsAreExclusive(ops: map<nat, Op>, w: State, events: seq<Event>)
    requires WellFormed(ops, w) && Exclusive(ops, w) && EnabledRun(ops, w, events)
    ensures WellFormed(ops, After(ops, w, events)) && Exclusive(ops, After(ops, w, events))
    decreases |events|
  {
    if events != [] {
      RunsAreWellFormed(ops, w, events[..1]);
      assert events[..1][1..] == [];
      StepKeepsExclusive(ops, w, events[0]);
      RunsAreExclusive(ops, Next(w, events[0]), events[1..]);
    }
  }

  /** The thread has all its locks: it is doing its work. */
  predicate Working(ops: map<nat, Op>, w: State, t: nat) {
    t in w && t in ops && w[t] == |Plan(ops[t])|
  }

  predicate ChangesPools(op: Op) {
    op in {Load, Command, Commit, FailedCommit, Release}
  }

  predicate LooksAtPools(op: Op) {
    op in {Choose, ChooseInTurn, ReadPools}
  }

  predicate ChangesRecords(op: Op) {
    op in {Load, Commit, Release}
  }

  /** Neither changes what the other changes or looks at. */
  predicate Compatible(a: Op, b: Op) {
    && !(ChangesPools(a) && (ChangesPools(b) || LooksAtPools(b)))
    && !(ChangesPools(b) && LooksAtPools(a))
    && !(ChangesRecords(a) && b == ReadVm) && !(ChangesRecords(b) && a == ReadVm)
    && !(a == ChooseInTurn && b == ChooseInTurn)
  }

  /** The two plans have no conflicting locks. */
  ghost predicate Apart(a: Op, b: Op) {
    forall x, y :: x in Plan(a) && y in Plan(b) ==> !Conflict(x, y)
  }

  lemma CompatibleIsApart(a: Op, b: Op)
    ensures Compatible(a, b) <==> Apart(a, b)
  {
    if !Compatible(a, b) {
      var p, q := Plan(a), Plan(b);
      if (ChangesPools(a) && (ChangesPools(b) || LooksAtPools(b))) || (ChangesPools(b) && LooksAtPools(a)) {
        var i, j := if a == Release then 2 else 0, if b == Release then 2 else 0;
        assert p[i] in p && q[j] in q && Conflict(p[i], q[j]);
      } else if a == ReadVm || b == ReadVm {
        var i, j := if a == Load || a == Commit then 1 else 0, if b == Load || b == Commit then 1 else 0;
        assert p[i] in p && q[j] in q && Conflict(p[i], q[j]);
      } else {
        assert p[1] in p && q[1] in q && Conflict(p[1], q[1]);
      }
    }
  }

  /** Both are at work only if their locks do not conflict. */
  lemma WorkersAreApart(ops: map<nat, Op>, w: State, t: nat, u: nat)
    requires WellFormed(ops, w) && Exclusive(ops, w) && t != u && Working(ops, w, t) && Working(ops, w, u)
    ensures Apart(ops[t], ops[u])
  {
    forall x, y | x in Plan(ops[t]) && y in Plan(ops[u])
      ensures !Conflict(x, y)
    {
      assert Plan(ops[t])[..w[t]] == Plan(ops[t]) && Plan(ops[u])[..w[u]] == Plan(ops[u]);
      assert Holds(ops, w, t, x) && Holds(ops, w, u, y);
    }
  }

  /** Of the other threads only such as have no conflict with `t` have any locks. */
  ghost predicate Clear(ops: map<nat, Op>, w: State, t: nat) {
    && WellFormed(ops, w) && t in w
    && forall u :: u in w && u != t && w[u] > 0 ==> Apart(ops[t], ops[u])
  }

  /** A plan has no lock twice, so no thread waits for itself. */
  lemma NotForItself(op: Op, n: nat, held: Need)
    requires n < |Plan(op)| && held in Plan(op)[..n]
    ensures !Conflict(Plan(op)[n], held)
  {
    var i :| 0 <= i < n && Plan(op)[i] == held;
  }

  lemma ClearCanAcquire(ops: map<nat, Op>, w: State, t: nat)
    requires Clear(ops, w, t) && w[t] < |Plan(ops[t])|
    ensures Enabled(ops, w, Acquire(t)) && Clear(ops, Next(w, Acquire(t)), t)
  {
    forall u
      ensures !WaitsFor(ops, w, t, u)
    {
      forall a, b | Wants(ops, w, t, a) && Holds(ops, w, u, b)
        ensures !Conflict(a, b)
      {
        if u == t {
          NotForItself(ops[t], w[t], b);
        } else {
          assert a in Plan(ops[t]) && b in Plan(ops[u]);
        }
      }
    }
  }

  lemma {:induction false} AcquireRest(ops: map<nat, Op>, w: State, t: nat) returns (events: seq<Event>)
    requires Clear(ops, w, t)
    ensures EnabledRun(ops, w, events) && After(ops, w, events) == w[t := |Plan(ops[t])|]
    decreases |Plan(ops[t])| - w[t]
  {
    events := [];
    if w[t] == |Plan(ops[t])| {
      assert w[t := w[t]] == w;
    } else {
      ClearCanAcquire(ops, w, t);
      var x := Next(w, Acquire(t));
      var rest := AcquireRest(ops, x, t);
      assert x[t := |Plan(ops[t])|] == w[t := |Plan(ops[t])|];
      events := [Acquire(t)] + rest;
      assert events[1..] == rest;
    }
  }

  lemma ThenRest(ops: map<nat, Op>, w: State, events: seq<Event>)
    requires events != [] && Enabled(ops, w, events[0]) && EnabledRun(ops, Next(w, events[0]), events[1..])
    ensures EnabledRun(ops, w, events) && After(ops, w, events) == After(ops, Next(w, events[0]), events[1..])
  {
  }

  lemma {:induction false} RunsConcatenate(ops: map<nat, Op>, w: State, first: seq<Event>, second: seq<Event>)
    requires EnabledRun(ops, w, first) && EnabledRun(ops, After(ops, w, first), second)
    ensures EnabledRun(ops, w, first + second) && After(ops, w, first + second) == After(ops, After(ops, w, first), second)
    decreases |first|
  {
    if first == [] {
      assert first + second == second;
    } else {
      var all := first + second;
      assert all[0] == first[0] && all[1..] == first[1..] + second;
      RunsConcatenate(ops, Next(w, first[0]), first[1..], second);
      ThenRest(ops, w, all);
    }
  }

  /** Some interleaving has both at work at once. */
  ghost predicate CanWorkTogether(ops: map<nat, Op>, t: nat, u: nat) {
    exists events :: EnabledRun(ops, Start(ops), events)
                     && Working(ops, After(ops, Start(ops), events), t) && Working(ops, After(ops, Start(ops), events), u)
  }

  lemma BothStart(ops: map<nat, Op>, t: nat, u: nat)
    requires t in ops && u in ops && t != u && Apart(ops[u], ops[t])
    ensures CanWorkTogether(ops, t, u)
  {
    var w := Start(ops);
    var first := AcquireRest(ops, w, t);
    var x := w[t := |Plan(ops[t])|];
    var second := AcquireRest(ops, x, u);
    RunsConcatenate(ops, w, first, second);
    assert Working(ops, x[u := |Plan(ops[u])|], t) && Working(ops, x[u := |Plan(ops[u])|], u);
  }

  /** Two operations can be at work at the same time exactly when neither changes what the other changes or looks at. */
  lemma TogetherExactlyWhenCompatible(ops: map<nat, Op>, t: nat, u: nat)
    requires t in ops && u in ops && t != u
    ensures CanWorkTogether(ops, t, u) <==> Compatible(ops[t], ops[u])
  {
    CompatibleIsApart(ops[t], ops[u]);
    CompatibleIsApart(ops[u], ops[t]);
    if Compatible(ops[t], ops[u]) {
      BothStart(ops, t, u);
    }
    if events :| EnabledRun(ops, Start(ops), events)
                 && Working(ops, After(ops, Start(ops), events), t) && Working(ops, After(ops, Start(ops), events), u) {
      RunsAreExclusive(ops, Start(ops), events);
      WorkersAreApart(ops, After(ops, Start(ops), events), t, u);
    }
  }
}
