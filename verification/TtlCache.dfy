/** The cache with expiring entries (`caching.rs`): the object, and any interleaving of its clients. */
module TtlCache {
  import opened Outcomes

  datatype Entry<V> = Entry(value: V, cachedAt: nat)

  predicate Fresh<V>(e: Entry<V>, ttl: nat, now: nat) {
    now < e.cachedAt + ttl
  }

  function Lookup<K, V>(cache: map<K, Entry<V>>, key: K, ttl: nat, now: nat): Option<Entry<V>> {
    if key in cache && Fresh(cache[key], ttl, now) then Some(cache[key]) else None
  }

  function Retained<K, V>(cache: map<K, Entry<V>>, ttl: nat, now: nat): map<K, Entry<V>> {
    map key | key in cache && Fresh(cache[key], ttl, now) :: cache[key]
  }

  // ---------------------------------------------------------------- the object

  class Cache<K(==), V> {
    var entries: map<K, Entry<V>>
    const ttl: nat

    constructor (ttl: nat)
      ensures entries == map[] && this.ttl == ttl
    {
      entries := map[];
      this.ttl := ttl;
    }

    /** The fast path, under the read lock. */
    method Check(key: K, now: nat) returns (hit: Option<V>)
      ensures hit.Some? <==> Lookup(entries, key, ttl, now).Some?
      ensures hit.Some? ==> hit.value == Lookup(entries, key, ttl, now).value.value
    {
      if key in entries && Fresh(entries[key], ttl, now) {
        return Some(entries[key].value);
      }
      hit := None;
    }

    /** The end of the slow path, under the write lock; the value was stamped when it was computed. */
    method Insert(key: K, value: V, stamp: nat)
      modifies this
      ensures entries == old(entries)[key := Entry(value, stamp)]
    {
      entries := entries[key := Entry(value, stamp)];
    }

    /** `get_or_compute` when nothing else runs: `computed` is what the closure would return, at instant `later`. */
    method GetOrCompute(key: K, now: nat, computed: V, later: nat) returns (value: V)
      modifies this
      ensures match Lookup(old(entries), key, ttl, now)
              case Some(e) => value == e.value && entries == old(entries)
              case None => value == computed && entries == old(entries)[key := Entry(computed, later)]
    {
      var hit := Check(key, now);
      if hit.Some? {
        return hit.value;
      }
      value := computed;
      Insert(key, value, later);
    }

    method Invalidate(key: K)
      modifies this
      ensures entries == old(entries) - {key}
    {
      entries := entries - {key};
    }

    method Clear()
      modifies this
      ensures entries == map[]
    {
      entries := map[];
    }

    method CleanupExpired(now: nat)
      modifies this
      ensures entries == Retained(old(entries), ttl, now)
    {
      entries := map key | key in entries && Fresh(entries[key], ttl, now) :: entries[key];
    }
  }

  // ---------------------------------------------------------------- interleaved clients

  /** A value together with, as history, how many invalidations there had been when its computation began. */
  datatype Made<V> = Made(value: V, began: nat)

  /** A client on the slow path: computing, or holding a stamped value. */
  datatype Client<K, V> = Computing(key: K, began: nat) | Holding(key: K, entry: Entry<Made<V>>)

  /** One answer: to whom, for which key, which entry, at which instant, and whether from the cache. */
  datatype Answer<K, V> = Answer(client: nat, key: K, entry: Entry<Made<V>>, at: nat, hit: bool)

  /** The cache, its clients, the clock, and as history the number of invalidations, every computation and every answer. */
  datatype World<K, V> = World(
    cache: map<K, Entry<Made<V>>>, clients: map<nat, Client<K, V>>, now: nat,
    epoch: nat, computed: seq<(K, Entry<Made<V>>)>, answers: seq<Answer<K, V>>)

  datatype Event<K, V> =
    | Ask(c: nat, key: K)
    | Computed(c: nat, value: V)
    | Store(c: nat)
    | Invalidate(key: K)
    | Clear
    | Cleanup
    | Wait(time: nat)

  predicate Allowed<K, V>(w: World<K, V>, ev: Event<K, V>) {
    match ev
    case Ask(c, _) => c !in w.clients
    case Computed(c, _) => c in w.clients && w.clients[c].Computing?
    case Store(c) => c in w.clients && w.clients[c].Holding?
    case _ => true
  }

  function Next<K, V>(w: World<K, V>, ev: Event<K, V>, ttl: nat): World<K, V>
    requires Allowed(w, ev)
  {
    match ev
    case Ask(c, key) =>
      (match Lookup(w.cache, key, ttl, w.now)
       case Some(e) => w.(answers := w.answers + [Answer(c, key, e, w.now, true)])
       case None => w.(clients := w.clients[c := Computing(key, w.epoch)]))
    case Computed(c, value) =>
      var client := w.clients[c];
      var entry := Entry(Made(value, client.began), w.now);
      w.(clients := w.clients[c := Holding(client.key, entry)], computed := w.computed + [(client.key, entry)])
    case Store(c) =>
      var client := w.clients[c];
      w.(cache := w.cache[client.key := client.entry], clients := w.clients - {c},
         answers := w.answers + [Answer(c, client.key, client.entry, w.now, false)])
    case Invalidate(key) => w.(cache := w.cache - {key}, epoch := w.epoch + 1)
    case Clear => w.(cache := map[])
    case Cleanup => w.(cache := Retained(w.cache, ttl, w.now))
    case Wait(time) => w.(now := w.now + time)
  }

  ghost predicate AllowedRun<K, V>(w: World<K, V>, events: seq<Event<K, V>>, ttl: nat)
    decreases |events|
  {
    events == [] || (Allowed(w, events[0]) && AllowedRun(Next(w, events[0], ttl), events[1..], ttl))
  }

  ghost function After<K, V>(w: World<K, V>, events: seq<Event<K, V>>, ttl: nat): World<K, V>
    requires AllowedRun(w, events, ttl)
    decreases |events|
  {
    if events == [] then w else After(Next(w, events[0], ttl), events[1..], ttl)
  }

  function Start<K, V>(): World<K, V> {
    World(map[], map[], 0, 0, [], [])
  }

  // ---------------------------------------------------------------- every value comes from its own key

  ghost predicate Honest<K, V>(w: World<K, V>, ttl: nat) {
    && (forall key :: key in w.cache ==> (key, w.cache[key]) in w.computed)
    && (forall c :: c in w.clients && w.clients[c].Holding? ==> (w.clients[c].key, w.clients[c].entry) in w.computed)
    && (forall i :: 0 <= i < |w.computed| ==> w.computed[i].1.cachedAt <= w.now)
    && (forall a :: a in w.answers ==> (a.key, a.entry) in w.computed && (a.hit ==> Fresh(a.entry, ttl, a.at)))
  }

  lemma NextIsHonest<K, V>(w: World<K, V>, ev: Event<K, V>, ttl: nat)
    requires Honest(w, ttl) && Allowed(w, ev)
    ensures Honest(Next(w, ev, ttl), ttl)
  {
    var x := Next(w, ev, ttl);
    assert forall p :: p in w.computed ==> p in x.computed;
    if ev.Computed? {
      assert x.computed[|w.computed|] in x.computed;
    }
  }

  lemma {:induction false} RunsStayHonest<K, V>(w: World<K, V>, events: seq<Event<K, V>>, ttl: nat)
    requires Honest(w, ttl) && AllowedRun(w, events, ttl)
    ensures Honest(After(w, events, ttl), ttl)
    decreases |events|
  {
    if events != [] {
      NextIsHonest(w, events[0], ttl);
      RunsStayHonest(Next(w, events[0], ttl), events[1..], ttl);
    }
  }

  /** In every interleaving each answer's value was computed for the key asked for, and every answer from the cache was
      computed less than the time to live before it was given. */
  lemma AnswersAreHonest<K, V>(events: seq<Event<K, V>>, ttl: nat, a: Answer<K, V>)
    requires AllowedRun(Start<K, V>(), events, ttl) && a in After(Start<K, V>(), events, ttl).answers
    ensures (a.key, a.entry) in After(Start<K, V>(), events, ttl).computed
    ensures a.hit ==> a.at < a.entry.cachedAt + ttl
  {
    RunsStayHonest(Start<K, V>(), events, ttl);
  }

  // ---------------------------------------------------------------- an entry is served until it expires

  /** The event neither replaces the key's entry nor removes it before its time. */
  predicate LeavesAlone<K(==), V>(w: World<K, V>, ev: Event<K, V>, key: K) {
    match ev
    case Store(c) => c in w.clients && w.clients[c].key != key
    case Invalidate(other) => other != key
    case Clear => false
    case _ => true
  }

  ghost predicate LeftAlone<K, V>(w: World<K, V>, events: seq<Event<K, V>>, key: K, ttl: nat)
    requires AllowedRun(w, events, ttl)
    decreases |events|
  {
    events == [] || (LeavesAlone(w, events[0], key) && LeftAlone(Next(w, events[0], ttl), events[1..], key, ttl))
  }

  /** Unless the key was cleaned up after its time, its entry is still there. */
  ghost predicate StillThere<K, V>(w: World<K, V>, key: K, e: Entry<Made<V>>, ttl: nat) {
    if key in w.cache then w.cache[key] == e else w.now >= e.cachedAt + ttl
  }

  lemma {:induction false} StaysThere<K, V>(w: World<K, V>, events: seq<Event<K, V>>, key: K, e: Entry<Made<V>>, ttl: nat)
    requires AllowedRun(w, events, ttl) && LeftAlone(w, events, key, ttl) && StillThere(w, key, e, ttl)
    ensures StillThere(After(w, events, ttl), key, e, ttl)
    decreases |events|
  {
    if events != [] {
      StaysThere(Next(w, events[0], ttl), events[1..], key, e, ttl);
    }
  }

  /** Whatever else happens, a stored entry that is neither replaced nor invalidated is served to everyone who asks less
      than the time to live after its stamp, and to nobody from then on. */
  lemma ServedUntilExpiry<K, V>(w: World<K, V>, events: seq<Event<K, V>>, key: K, ttl: nat, c: nat)
    requires key in w.cache && AllowedRun(w, events, ttl) && LeftAlone(w, events, key, ttl) && c !in After(w, events, ttl).clients
    ensures var x := After(w, events, ttl);
            var y := Next(x, Ask(c, key), ttl);
            if x.now < w.cache[key].cachedAt + ttl
            then y == x.(answers := x.answers + [Answer(c, key, w.cache[key], x.now, true)])
            else y.answers == x.answers && c in y.clients && y.clients[c] == Computing(key, x.epoch)
  {
    StaysThere(w, events, key, w.cache[key], ttl);
  }

  // ---------------------------------------------------------------- cleaning up is invisible

  /** The two worlds differ at most in entries that have expired. */
  ghost predicate SameFresh<K(!new), V>(w: World<K, V>, x: World<K, V>, ttl: nat) {
    && x == w.(cache := x.cache)
    && forall key :: Lookup(w.cache, key, ttl, w.now) == Lookup(x.cache, key, ttl, w.now)
  }

  lemma NextStaysSame<K(!new), V>(w: World<K, V>, x: World<K, V>, ev: Event<K, V>, ttl: nat)
    requires SameFresh(w, x, ttl) && Allowed(w, ev)
    ensures Allowed(x, ev) && SameFresh(Next(w, ev, ttl), Next(x, ev, ttl), ttl)
  {
    var w', x' := Next(w, ev, ttl), Next(x, ev, ttl);
    forall key
      ensures Lookup(w'.cache, key, ttl, w'.now) == Lookup(x'.cache, key, ttl, w'.now)
    {
      assert Lookup(w.cache, key, ttl, w.now) == Lookup(x.cache, key, ttl, w.now);
    }
    if ev.Ask? {
      assert Lookup(w.cache, ev.key, ttl, w.now) == Lookup(x.cache, ev.key, ttl, w.now);
    }
  }

  lemma {:induction false} RunsStaySame<K(!new), V>(w: World<K, V>, x: World<K, V>, events: seq<Event<K, V>>, ttl: nat)
    requires SameFresh(w, x, ttl) && AllowedRun(w, events, ttl)
    ensures AllowedRun(x, events, ttl) && SameFresh(After(w, events, ttl), After(x, events, ttl), ttl)
    decreases |events|
  {
    if events != [] {
      NextStaysSame(w, x, events[0], ttl);
      RunsStaySame(Next(w, events[0], ttl), Next(x, events[0], ttl), events[1..], ttl);
    }
  }

  /** Leaving out a clean-up changes nothing that any client can see: the rest of the run stays possible, with the same
      answers, the same hits and the same computations. */
  lemma CleanupIsInvisible<K(!new), V>(w: World<K, V>, events: seq<Event<K, V>>, ttl: nat)
    requires AllowedRun(Next(w, Cleanup, ttl), events, ttl)
    ensures AllowedRun(w, events, ttl)
    ensures var with, without := After(Next(w, Cleanup, ttl), events, ttl), After(w, events, ttl);
            with.answers == without.answers && with.computed == without.computed && with.clients == without.clients
  {
    RunsStaySame(Next(w, Cleanup, ttl), w, events, ttl);
  }

  // ---------------------------------------------------------------- what invalidating a key promises

  /** Nothing began in an epoch still to come. */
  ghost predicate Timely<K, V>(w: World<K, V>) {
    && (forall key :: key in w.cache ==> w.cache[key].value.began <= w.epoch)
    && (forall c :: c in w.clients ==> Began(w.clients[c]) <= w.epoch)
  }

  function Began<K, V>(client: Client<K, V>): nat {
    if client.Computing? then client.began else client.entry.value.began
  }

  lemma {:induction false} RunsAreTimely<K, V>(w: World<K, V>, events: seq<Event<K, V>>, ttl: nat)
    requires Timely(w) && AllowedRun(w, events, ttl)
    ensures Timely(After(w, events, ttl))
    decreases |events|
  {
    if events != [] {
      RunsAreTimely(Next(w, events[0], ttl), events[1..], ttl);
    }
  }

  /** Client `c` may yet store an unexpired value for `key`: it computes one, or holds one that has not expired. */
  predicate UnderWay<K(==), V>(w: World<K, V>, c: nat, key: K, ttl: nat)
    requires c in w.clients
  {
    && w.clients[c].key == key
    && if w.clients[c].Computing? then ttl > 0 else Fresh(w.clients[c].entry, ttl, w.now)
  }

  /** `key` has only been served, since the `m` first answers, with values whose computation began in epoch `s` or later,
      and no other value for it is left that could be served. */
  ghost predicate OnlyNewer<K, V>(w: World<K, V>, key: K, s: nat, m: nat, ttl: nat) {
    && s <= w.epoch && m <= |w.answers|
    && (key in w.cache && Fresh(w.cache[key], ttl, w.now) ==> w.cache[key].value.began >= s)
    && (forall c :: c in w.clients && UnderWay(w, c, key, ttl) ==> Began(w.clients[c]) >= s)
    && (forall a :: a in w.answers[m..] && a.hit && a.key == key ==> a.entry.value.began >= s)
  }

  /** Some hit on `key` during the run gave a value whose computation began before the run's epoch. */
  ghost predicate ServedStale<K, V>(w: World<K, V>, key: K, events: seq<Event<K, V>>, ttl: nat)
    requires AllowedRun(w, events, ttl)
  {
    var x := After(w, events, ttl);
    && |w.answers| <= |x.answers|
    && exists a :: a in x.answers[|w.answers|..] && a.hit && a.key == key && a.entry.value.began < w.epoch
  }

  lemma NextStaysNewer<K, V>(w: World<K, V>, ev: Event<K, V>, key: K, s: nat, m: nat, ttl: nat)
    requires OnlyNewer(w, key, s, m, ttl) && Allowed(w, ev)
    ensures OnlyNewer(Next(w, ev, ttl), key, s, m, ttl)
  {
    var x := Next(w, ev, ttl);
    if |x.answers| > |w.answers| {
      assert x.answers[m..] == w.answers[m..] + [x.answers[|w.answers|]];
    }
  }

  lemma {:induction false} RunsStayNewer<K, V>(w: World<K, V>, events: seq<Event<K, V>>, key: K, s: nat, m: nat, ttl: nat)
    requires OnlyNewer(w, key, s, m, ttl) && AllowedRun(w, events, ttl)
    ensures OnlyNewer(After(w, events, ttl), key, s, m, ttl)
    decreases |events|
  {
    if events != [] {
      NextStaysNewer(w, events[0], key, s, m, ttl);
      RunsStayNewer(Next(w, events[0], ttl), events[1..], key, s, m, ttl);
    }
  }

  /** A client that holds an unexpired value stores it after all, and serves it. */
  lemma HeldIsServed<K, V>(w: World<K, V>, key: K, c: nat, ttl: nat)
    requires c in w.clients && w.clients[c].Holding? && UnderWay(w, c, key, ttl) && Began(w.clients[c]) < w.epoch
    ensures var events := [Store(c), Ask(c, key)]; AllowedRun(w, events, ttl) && ServedStale(w, key, events, ttl)
  {
    var events := [Store(c), Ask(c, key)];
    var y := Next(w, Store(c), ttl);
    var z := Next(y, Ask(c, key), ttl);
    assert events[1..] == [Ask(c, key)] && events[1..][1..] == [];
    assert AllowedRun(z, events[1..][1..], ttl);
    assert AllowedRun(y, events[1..], ttl) && After(y, events[1..], ttl) == z;
    assert After(w, events, ttl) == z;
    assert z.answers[|w.answers|..][1] == z.answers[|y.answers|];
  }

  lemma FirstThenRest<K, V>(w: World<K, V>, key: K, ev: Event<K, V>, rest: seq<Event<K, V>>, ttl: nat)
    requires Allowed(w, ev) && AllowedRun(Next(w, ev, ttl), rest, ttl) && ServedStale(Next(w, ev, ttl), key, rest, ttl)
    requires Next(w, ev, ttl).epoch == w.epoch && Next(w, ev, ttl).answers == w.answers
    ensures AllowedRun(w, [ev] + rest, ttl) && ServedStale(w, key, [ev] + rest, ttl)
  {
    assert ([ev] + rest)[1..] == rest;
  }

  /** An invalidation is lost on every client that is computing a value for the key or holds an unexpired one: it goes on
      to store and to serve what it began before. */
  lemma InvalidationIsLost<K, V(00)>(w: World<K, V>, key: K, c: nat, ttl: nat) returns (events: seq<Event<K, V>>)
    requires Timely(w) && c in w.clients && UnderWay(w, c, key, ttl)
    ensures var x := Next(w, Event<K, V>.Invalidate(key), ttl);
            AllowedRun(x, events, ttl) && ServedStale(x, key, events, ttl)
  {
    var x := Next(w, Event<K, V>.Invalidate(key), ttl);
    if w.clients[c].Holding? {
      HeldIsServed(x, key, c, ttl);
      events := [Store(c), Ask(c, key)];
    } else {
      var value: V :| true;
      HeldIsServed(Next(x, Computed(c, value), ttl), key, c, ttl);
      FirstThenRest(x, key, Computed(c, value), [Store(c), Ask(c, key)], ttl);
      events := [Computed(c, value)] + [Store(c), Ask(c, key)];
    }
  }

  /** In every reachable state: after `key` is invalidated it is never again served with a value whose computation began
      before, in any interleaving, exactly when at that moment no client is computing a value for it and none holds
      one that has not expired. */
  lemma InvalidatedExactlyWhenNoneUnderWay<K(!new), V(!new, 00)>(before: seq<Event<K, V>>, key: K, ttl: nat)
    requires AllowedRun(Start<K, V>(), before, ttl)
    ensures var w := After(Start<K, V>(), before, ttl);
            var x := Next(w, Event<K, V>.Invalidate(key), ttl);
            (forall events | AllowedRun(x, events, ttl) :: !ServedStale(x, key, events, ttl))
            <==> (forall c :: c in w.clients ==> !UnderWay(w, c, key, ttl))
  {
    RunsAreTimely(Start<K, V>(), before, ttl);
    var w := After(Start<K, V>(), before, ttl);
    var x := Next(w, Event<K, V>.Invalidate(key), ttl);
    if c :| c in w.clients && UnderWay(w, c, key, ttl) {
      var events := InvalidationIsLost(w, key, c, ttl);
    } else {
      assert forall c :: c in x.clients ==> !UnderWay(x, c, key, ttl) by {
        assert forall c :: c in x.clients ==> UnderWay(w, c, key, ttl) == UnderWay(x, c, key, ttl);
      }
      assert OnlyNewer(x, key, x.epoch, |x.answers|, ttl);
      forall events | AllowedRun(x, events, ttl)
        ensures !ServedStale(x, key, events, ttl)
      {
        RunsStayNewer(x, events, key, x.epoch, |x.answers|, ttl);
      }
    }
  }
}
