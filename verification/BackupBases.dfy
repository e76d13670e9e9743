/** Retention counts full and incremental backups alike: when it deletes a full backup that a kept incremental is based on. */
module BackupBases {
  import opened Outcomes
  import opened BackupChain
  import opened BackupRuns

  /** An incremental's base is stored, and is still the older full backup it was made from. */
  predicate Based(store: Store, m: Meta) {
    m.kind.Incremental? ==>
      m.kind.base in store && store[m.kind.base].kind.Full? && store[m.kind.base].timestamp < m.timestamp
  }

  ghost predicate AllBased(store: Store) {
    forall id {:trigger Based(store, store[id])} :: id in store ==> Based(store, store[id])
  }

  /** No full backup lies between an incremental and its base. */
  predicate Nearest(store: Store, m: Meta, f: Meta) {
    m.kind.Incremental? && Based(store, m) && f.kind.Full? && f.timestamp < m.timestamp ==>
      f.timestamp <= store[m.kind.base].timestamp
  }

  ghost predicate BasesFit(store: Store) {
    && (forall id :: id in store ==> !store[id].kind.Snapshot?)
    && forall a, b {:trigger Nearest(store, store[a], store[b])} :: a in store && b in store ==> Nearest(store, store[a], store[b])
  }

  // ---------------------------------------------------------------- every run

  lemma FullKeepsBases(w: World, t: nat, commit: nat)
    requires StoreFits(w) && BasesFit(w.manager.store) && t > w.now
    ensures BasesFit(BackupNow(w.manager, t, commit, true).store)
  {
    var store, full := w.manager.store, FullAt(t, commit);
    var more := BackupNow(w.manager, t, commit, true).store;
    forall a, b | a in more && b in more
      ensures Nearest(more, more[a], more[b])
    {
      assert a != full.id && b != full.id ==> Nearest(store, store[a], store[b]);
    }
  }

  lemma FewerKeepBases(store: Store, kept: Store)
    requires BasesFit(store) && forall id :: id in kept ==> id in store && kept[id] == store[id]
    ensures BasesFit(kept)
  {
    forall a, b | a in kept && b in kept
      ensures Nearest(kept, kept[a], kept[b])
    {
      assert Nearest(store, store[a], store[b]);
    }
  }

  lemma IncrementKeepsBases(w: World, f: Meta, meta: Meta, x: World)
    requires StoreFits(w) && BasesFit(w.manager.store) && NewestFull(w, f) && Appended(w, f, meta, x)
    ensures BasesFit(x.manager.store)
  {
    var store, more := w.manager.store, x.manager.store;
    forall a, b | a in more && b in more
      ensures Nearest(more, more[a], more[b])
    {
      assert a != meta.id && b != meta.id ==> Nearest(store, store[a], store[b]);
    }
  }

  lemma {:induction false} WithoutIsFewer(store: Store, l: seq<Meta>, id: Id)
    requires id in Without(store, l)
    ensures id in store && Without(store, l)[id] == store[id]
  {
    if l != [] {
      WithoutIsFewer(store, l[..|l| - 1], id);
    }
  }

  lemma CleanupKeepsBases(store: Store, l: seq<Meta>, max: nat, done: nat)
    requires BasesFit(store)
    ensures BasesFit(Cleanup(store, l, max, done))
  {
    if |l| > max {
      var gone := l[max..if max + done < |l| then max + done else |l|];
      forall id | id in Without(store, gone)
        ensures id in store && Without(store, gone)[id] == store[id]
      {
        WithoutIsFewer(store, gone, id);
      }
      FewerKeepBases(store, Without(store, gone));
    }
  }

  lemma NextKeepsBases(c: Config, w: World, ev: Event)
    requires Inv(w) && BasesFit(w.manager.store) && Allowed(c, w, ev)
    ensures BasesFit(Next(c, w, ev).manager.store)
  {
    match ev
    case Now(t, commit, _) => FullKeepsBases(w, t, commit);
    case Tick(t, commit, _, done, listing) =>
      FullKeepsBases(w, t, commit);
      CleanupKeepsBases(BackupNow(w.manager, t, commit, true).store, listing, c.maxBackups, done);
    case Increment(t, index, stored, listing) =>
      if w.newest == None {
        EmptyHasNoBase(listing);
      } else {
        var f := w.newest.value;
        BaseIsNewest(w, f, listing);
        if BackupIncremental(w.manager, listing, t, index, stored).1 == None {
          IncrementKeepsBases(w, f, IncrementalAt(w.manager, f.id, t, index.value), Next(c, w, ev));
        }
      }
  }

  lemma {:induction false} RunKeepsBases(c: Config, w: World, events: seq<Event>)
    requires c.maxBackups >= 1 && Inv(w) && BasesFit(w.manager.store) && AllowedRun(c, w, events)
    ensures Inv(After(c, w, events)) && BasesFit(After(c, w, events).manager.store)
    decreases |events|
  {
    if events != [] {
      NextKeepsBases(c, w, events[0]);
      NextKeepsInv(c, w, events[0]);
      RunKeepsBases(c, Next(c, w, events[0]), events[1..]);
    }
  }

  // ---------------------------------------------------------------- one retention pass

  /** A complete pass keeps exactly the first `max` listed backups. */
  lemma KeptAreFirst(store: Store, l: seq<Meta>, max: nat, m: Meta)
    requires Listing(store, l) && max <= |l| && (forall id :: id in store ==> store[id].id == id)
    ensures Stored(Without(store, l[max..]), m) <==> m in l[..max]
  {
    WithoutKeeps(store, l[max..]);
    if m in l[..max] {
      var i :| 0 <= i < max && l[i] == m;
      assert m in l;
      forall n | n in l[max..]
        ensures n.id != m.id
      {
        var j :| max <= j < |l| && l[j] == n;
        assert n in l && l[i] != l[j];
      }
    } else if Stored(store, m) {
      assert m in l;
      var i :| 0 <= i < |l| && l[i] == m;
      assert i >= max ==> l[max..][i - max] == m;
    }
  }

  lemma CutAtIncremental(store: Store, l: seq<Meta>, max: nat)
    requires Listing(store, l) && 1 <= max < |l| && (forall id :: id in store ==> store[id].id == id)
    requires l[max - 1].kind.Incremental?
    ensures !AllBased(Without(store, l[max..]))
  {
    var kept, last := Without(store, l[max..]), l[max - 1];
    KeptAreFirst(store, l, max, last);
    assert last in l[..max];
    if Based(kept, last) {
      var base := kept[last.kind.base];
      WithoutIsFewer(store, l[max..], last.kind.base);
      KeptAreFirst(store, l, max, base);
    }
  }

  lemma BaseIsKept(store: Store, l: seq<Meta>, max: nat, m: Meta)
    requires Listing(store, l) && 1 <= max < |l| && (forall id :: id in store ==> store[id].id == id)
    requires NewestFirst(l) && BasesFit(store) && AllBased(store) && l[max - 1].kind.Full?
    requires Stored(Without(store, l[max..]), m)
    ensures Based(Without(store, l[max..]), m)
  {
    var kept, last := Without(store, l[max..]), l[max - 1];
    KeptAreFirst(store, l, max, m);
    var p :| 0 <= p < max && l[p] == m;
    assert m in l && last in l && Based(store, store[m.id]);
    if m.kind.Incremental? {
      var base := store[m.kind.base];
      assert last.timestamp < m.timestamp;
      assert Nearest(store, store[m.id], store[last.id]);
      assert base in l;
      var b :| 0 <= b < |l| && l[b] == base;
      assert b < max;
      assert base in l[..max];
      KeptAreFirst(store, l, max, base);
    }
  }

  /** A complete retention pass that deletes something leaves every incremental its base exactly when the last backup it keeps
      is a full one. */
  lemma BasesKeptExactlyWhenCutAtFull(c: Config, events: seq<Event>, ev: Event)
    requires c.maxBackups >= 1 && AllowedRun(c, Start(), events) && Allowed(c, After(c, Start(), events), ev)
    requires ev.Tick? && ev.stored && Due(After(c, Start(), events).manager, c, ev.t)
    requires c.maxBackups < |ev.listing| <= ev.done
    requires AllBased(BackupNow(After(c, Start(), events).manager, ev.t, ev.commit, true).store)
    ensures AllBased(Next(c, After(c, Start(), events), ev).manager.store) <==> ev.listing[c.maxBackups - 1].kind.Full?
  {
    var w := After(c, Start(), events);
    TickIsPass(c, w, ev);
    PassInRun(c, events, ev.t, ev.commit, ev.listing);
  }

  lemma RunsFit(c: Config, events: seq<Event>)
    requires c.maxBackups >= 1 && AllowedRun(c, Start(), events)
    ensures var w := After(c, Start(), events); StoreFits(w) && BasesFit(w.manager.store)
  {
    RunKeepsBases(c, Start(), events);
  }

  lemma PassInRun(c: Config, events: seq<Event>, t: nat, commit: nat, l: seq<Meta>)
    requires 1 <= c.maxBackups < |l| && AllowedRun(c, Start(), events) && t > After(c, Start(), events).now
    requires var store := BackupNow(After(c, Start(), events).manager, t, commit, true).store; AllBased(store) && Listing(store, l)
    ensures var store := BackupNow(After(c, Start(), events).manager, t, commit, true).store;
            AllBased(Without(store, l[c.maxBackups..])) <==> l[c.maxBackups - 1].kind.Full?
  {
    RunsFit(c, events);
    PassAfterFull(After(c, Start(), events), t, commit, l, c.maxBackups);
  }

  lemma TickIsPass(c: Config, w: World, ev: Event)
    requires Allowed(c, w, ev) && ev.Tick? && ev.stored && Due(w.manager, c, ev.t) && c.maxBackups < |ev.listing| <= ev.done
    ensures var store := BackupNow(w.manager, ev.t, ev.commit, true).store;
            && ev.t > w.now && Listing(store, ev.listing)
            && Next(c, w, ev).manager.store == Without(store, ev.listing[c.maxBackups..])
  {
    CompletePass(BackupNow(w.manager, ev.t, ev.commit, true).store, ev.listing, c.maxBackups, ev.done);
  }

  lemma PassAfterFull(w: World, t: nat, commit: nat, l: seq<Meta>, max: nat)
    requires StoreFits(w) && BasesFit(w.manager.store) && t > w.now
    requires AllBased(BackupNow(w.manager, t, commit, true).store) && Listing(BackupNow(w.manager, t, commit, true).store, l)
    requires 1 <= max < |l|
    ensures AllBased(Without(BackupNow(w.manager, t, commit, true).store, l[max..])) <==> l[max - 1].kind.Full?
  {
    FullKeepsBases(w, t, commit);
    FullFits(w, t, commit);
    PassKeepsBases(World(BackupNow(w.manager, t, commit, true), t, None, []), l, max);
  }

  lemma FullFits(w: World, t: nat, commit: nat)
    requires StoreFits(w) && t > w.now
    ensures StoreFits(World(BackupNow(w.manager, t, commit, true), t, None, []))
  {
  }

  lemma CompletePass(store: Store, l: seq<Meta>, max: nat, done: nat)
    requires max < |l| <= done
    ensures Cleanup(store, l, max, done) == Without(store, l[max..])
  {
    assert l[max..|l|] == l[max..];
  }

  lemma PassKeepsBases(w: World, l: seq<Meta>, max: nat)
    requires StoreFits(w) && BasesFit(w.manager.store) && AllBased(w.manager.store) && Listing(w.manager.store, l)
    requires 1 <= max < |l|
    ensures AllBased(Without(w.manager.store, l[max..])) <==> l[max - 1].kind.Full?
  {
    var store := w.manager.store;
    StoreListsNewestFirst(w, l);
    assert l[max - 1] in l;
    if l[max - 1].kind.Full? {
      forall id | id in Without(store, l[max..])
        ensures Based(Without(store, l[max..]), Without(store, l[max..])[id])
      {
        WithoutIsFewer(store, l[max..], id);
        BaseIsKept(store, l, max, store[id]);
      }
    } else {
      CutAtIncremental(store, l, max);
    }
  }

  // ---------------------------------------------------------------- a stranded incremental

  function StrandRun(): seq<Event> {
    var first, second := FullAt(1 * SECOND, 0), FullAt(3 * SECOND, 1);
    var increment := Meta(IncrementalId(2), 2 * SECOND, Incremental(first.id, 0, 1), 1);
    [Now(1 * SECOND, 0, true), Increment(2 * SECOND, Some(1), true, [first]), Tick(3 * SECOND, 1, true, 3, [second, increment, first])]
  }

  /** Two backups are to be kept: a full one, its incremental, and a second full one leave the incremental without its
      base. */
  lemma RetentionStrandsIncremental(c: Config)
    requires c.maxBackups == 2 && c.minInterval <= SECOND
    ensures AllowedRun(c, Start(), StrandRun())
    ensures var store := After(c, Start(), StrandRun()).manager.store;
            && IncrementalId(2) in store && FullId(1) !in store
            && store[IncrementalId(2)].kind == Incremental(FullId(1), 0, 1)
  {
    var first, second := FullAt(1 * SECOND, 0), FullAt(3 * SECOND, 1);
    assert first == Meta(FullId(1), SECOND, Full, 0) && second == Meta(FullId(3), 3 * SECOND, Full, 1);
    var increment := Meta(IncrementalId(2), 2 * SECOND, Incremental(FullId(1), 0, 1), 1);
    var events := StrandRun();
    var w1 := Next(c, Start(), events[0]);
    assert w1.manager == Manager(map[FullId(1) := first], Some(SECOND), 0);
    assert Listing(w1.manager.store, [first]);
    var w2 := Next(c, w1, events[1]);
    assert w2.manager == Manager(map[FullId(1) := first, IncrementalId(2) := increment], Some(2 * SECOND), 1);
    var store := BackupNow(w2.manager, 3 * SECOND, 1, true).store;
    assert store == map[FullId(1) := first, IncrementalId(2) := increment, FullId(3) := second];
    var l := [second, increment, first];
    assert Listing(store, l);
    var w3 := Next(c, w2, events[2]);
    assert l[2..3] == [first] && [first][..0] == [];
    assert Without(store, []) == store && Without(store, [first]) == store - {FullId(1)};
    assert w3.manager.store == store - {FullId(1)};
    assert events[1..][0] == events[1] && events[1..][1..] == events[2..] && events[2..][0] == events[2] && events[2..][1..] == [];
    assert AllowedRun(c, w3, []) && After(c, w3, []) == w3;
    assert AllowedRun(c, w2, events[2..]) && After(c, w2, events[2..]) == w3;
    assert AllowedRun(c, w1, events[1..]) && After(c, w1, events[1..]) == w3;
  }
}
