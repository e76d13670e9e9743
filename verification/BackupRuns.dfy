/** Whole runs of the backup manager: the newest full backup survives, the incrementals after it tile the log
    exactly when none shares its second with another, and what point-in-time recovery selects. */
module BackupRuns {
  import opened Outcomes
  import opened BackupChain

  // ---------------------------------------------------------------- runs

  /** The manager, the instant of its last operation, and as history the newest full backup and the incrementals
      made since, in order. */
  datatype World = World(manager: Manager, now: nat, newest: Option<Meta>, chain: seq<Meta>)

  datatype Event =
    | Now(t: nat, commit: nat, stored: bool)
    | Tick(t: nat, commit: nat, stored: bool, done: nat, listing: seq<Meta>)
    | Increment(t: nat, index: Option<nat>, stored: bool, listing: seq<Meta>)

  /** Operations happen at strictly later instants, and see what the store lists. */
  ghost predicate Allowed(c: Config, w: World, ev: Event) {
    && ev.t > w.now
    && match ev
       case Now(_, _, _) => true
       case Tick(t, commit, stored, _, listing) =>
         Due(w.manager, c, t) && stored ==> Listing(BackupNow(w.manager, t, commit, true).store, listing)
       case Increment(_, _, _, listing) => Listing(w.manager.store, listing)
  }

  function Next(c: Config, w: World, ev: Event): World {
    match ev
    case Now(t, commit, stored) =>
      if !stored then w.(now := t)
      else World(BackupNow(w.manager, t, commit, true), t, Some(FullAt(t, commit)), [])
    case Tick(t, commit, stored, done, listing) =>
      if !stored || !Due(w.manager, c, t) then w.(now := t)
      else
        var m := BackupNow(w.manager, t, commit, true);
        World(m.(store := Cleanup(m.store, listing, c.maxBackups, done)), t, Some(FullAt(t, commit)), [])
    case Increment(t, index, stored, listing) =>
      var (m, error) := BackupIncremental(w.manager, listing, t, index, stored);
      if error.Some? then w.(now := t)
      else World(m, t, w.newest, w.chain + [IncrementalAt(w.manager, FirstFull(listing).value.id, t, index.value)])
  }

  ghost predicate AllowedRun(c: Config, w: World, events: seq<Event>)
    decreases |events|
  {
    events == [] || (Allowed(c, w, events[0]) && AllowedRun(c, Next(c, w, events[0]), events[1..]))
  }

  function After(c: Config, w: World, events: seq<Event>): World
    decreases |events|
  {
    if events == [] then w else After(c, Next(c, w, events[0]), events[1..])
  }

  function Start(): World {
    World(Manager(map[], None, 0), 0, None, [])
  }

  // ---------------------------------------------------------------- tilings

  /** The pieces follow one another without gap or overlap from `lo` to `hi`. */
  predicate Tiles(pieces: seq<Meta>, lo: nat, hi: nat) {
    if pieces == [] then lo == hi
    else
      var last := pieces[|pieces| - 1];
      last.kind.Incremental? && last.kind.from < last.kind.to == hi && Tiles(pieces[..|pieces| - 1], lo, last.kind.from)
  }

  predicate Covers(m: Meta, n: nat) {
    m.kind.Incremental? && m.kind.from <= n < m.kind.to
  }

  lemma {:induction false} TilesCover(pieces: seq<Meta>, lo: nat, hi: nat, n: nat) returns (m: Meta)
    requires Tiles(pieces, lo, hi) && lo <= n < hi
    ensures m in pieces && Covers(m, n)
  {
    var last := pieces[|pieces| - 1];
    if last.kind.from <= n {
      m := last;
    } else {
      m := TilesCover(pieces[..|pieces| - 1], lo, last.kind.from, n);
    }
  }

  lemma {:induction false} TilesAreOrdered(pieces: seq<Meta>, lo: nat, hi: nat, i: nat)
    requires Tiles(pieces, lo, hi) && i < |pieces|
    ensures pieces[i].kind.Incremental? && lo <= pieces[i].kind.from < pieces[i].kind.to <= hi
    ensures forall j :: 0 <= j < i ==> pieces[j].kind.Incremental? && pieces[j].kind.to <= pieces[i].kind.from
  {
    var front, last := pieces[..|pieces| - 1], pieces[|pieces| - 1];
    if i < |front| {
      TilesAreOrdered(front, lo, last.kind.from, i);
    } else {
      forall j | 0 <= j < i
        ensures pieces[j].kind.Incremental? && pieces[j].kind.to <= pieces[i].kind.from
      {
        TilesAreOrdered(front, lo, last.kind.from, j);
      }
      TilesBounds(front, lo, last.kind.from);
    }
  }

  lemma {:induction false} TilesBounds(pieces: seq<Meta>, lo: nat, hi: nat)
    requires Tiles(pieces, lo, hi)
    ensures lo <= hi
  {
    if pieces != [] {
      TilesBounds(pieces[..|pieces| - 1], lo, pieces[|pieces| - 1].kind.from);
    }
  }

  /** Only the piece itself covers its own first index. */
  lemma CoveredOnce(pieces: seq<Meta>, lo: nat, hi: nat, i: nat, j: nat)
    requires Tiles(pieces, lo, hi) && i < |pieces| && j < |pieces|
    requires pieces[i].kind.Incremental? && Covers(pieces[j], pieces[i].kind.from)
    ensures i == j
  {
    TilesAreOrdered(pieces, lo, hi, i);
    TilesAreOrdered(pieces, lo, hi, j);
  }

  // ---------------------------------------------------------------- the invariant

  predicate Stored(store: Store, m: Meta) {
    m.id in store && store[m.id] == m
  }

  ghost predicate StoreFits(w: World) {
    var store := w.manager.store;
    && (forall id :: id in store ==> store[id].id == id && store[id].timestamp <= w.now)
    && (forall a, b :: a in store && b in store && a != b ==> store[a].timestamp != store[b].timestamp)
  }

  /** The chain after the newest full backup `f`: later and later, based on `f`, tiling the log since. */
  ghost predicate ChainFits(w: World, f: Meta) {
    && Tiles(w.chain, f.raftIndex, w.manager.lastIndex)
    && (forall i :: 0 <= i < |w.chain| ==>
          && w.chain[i].id.IncrementalId? && f.timestamp < w.chain[i].timestamp <= w.now
          && w.chain[i].kind.Incremental? && w.chain[i].kind.base == f.id)
    && (forall i, j :: 0 <= i < j < |w.chain| ==> w.chain[i].timestamp < w.chain[j].timestamp)
  }

  /** What is stored after `f` is the chain less the pieces whose id was used again. */
  ghost predicate ChainStored(w: World, f: Meta) {
    && (forall id :: id in w.manager.store && w.manager.store[id].timestamp > f.timestamp ==> w.manager.store[id] in w.chain)
    && (forall i :: 0 <= i < |w.chain| ==>
          (Stored(w.manager.store, w.chain[i]) <==> !UsedAgain(w.chain, i)))
  }

  ghost predicate NewestFull(w: World, f: Meta) {
    && f.kind.Full? && f.id.FullId? && f.timestamp <= w.now && Stored(w.manager.store, f)
    && (forall id :: id in w.manager.store && w.manager.store[id].kind.Full? ==> w.manager.store[id].timestamp <= f.timestamp)
  }

  ghost predicate Inv(w: World) {
    && StoreFits(w)
    && (w.newest == None ==> w.manager.store == map[] && w.chain == [])
    && (w.newest.Some? ==> NewestFull(w, w.newest.value) && ChainFits(w, w.newest.value) && ChainStored(w, w.newest.value))
  }

  // ---------------------------------------------------------------- full backups and retention

  lemma FullKeepsInv(w: World, t: nat, commit: nat)
    requires Inv(w) && t > w.now
    ensures Inv(World(BackupNow(w.manager, t, commit, true), t, Some(FullAt(t, commit)), []))
  {
  }

  lemma {:induction false} WithoutKeeps(store: Store, l: seq<Meta>)
    ensures forall id :: id in Without(store, l) <==> id in store && forall m :: m in l ==> m.id != id
    ensures forall id :: id in Without(store, l) ==> Without(store, l)[id] == store[id]
  {
    if l != [] {
      WithoutKeeps(store, l[..|l| - 1]);
      assert l == l[..|l| - 1] + [l[|l| - 1]];
    }
  }

  /** Retention deletes only what `max` listed backups precede; the newest backup is listed first. */
  lemma CleanupKeeps(store: Store, l: seq<Meta>, max: nat, done: nat, f: Meta)
    requires Listing(store, l) && Stored(store, f) && max >= 1
    requires forall id :: id in store && id != f.id ==> store[id].timestamp < f.timestamp
    ensures var kept := Cleanup(store, l, max, done);
            && Stored(kept, f)
            && forall id :: id in kept ==> id in store && kept[id] == store[id]
  {
    if |l| > max {
      var gone := l[max..if max + done < |l| then max + done else |l|];
      WithoutKeeps(store, gone);
      forall m | m in gone
        ensures m.id != f.id
      {
        var i :| max <= i < |l| && l[i] == m;
        assert l[0] in l && l[i] in l;
        assert f in l;
        var j :| 0 <= j < |l| && l[j] == f;
        assert l[0].timestamp >= l[j].timestamp;
        assert l[0] == f;
      }
    }
  }

  lemma ShrinkKeepsInv(w: World, kept: Store)
    requires Inv(w) && w.newest.Some? && w.chain == [] && Stored(kept, w.newest.value)
    requires forall id :: id in kept ==> id in w.manager.store && kept[id] == w.manager.store[id]
    ensures Inv(w.(manager := w.manager.(store := kept)))
  {
  }

  lemma CompleteCleanup(store: Store, l: seq<Meta>, max: nat, done: nat, f: Meta)
    requires Listing(store, l) && Stored(store, f) && done >= |l|
    requires forall id :: id in store && id != f.id ==> store[id].timestamp < f.timestamp
    ensures Stored(Cleanup(store, l, max, done), f) <==> max >= 1
  {
    if max >= 1 {
      CleanupKeeps(store, l, max, done, f);
    } else {
      assert f in l;
      WithoutKeeps(store, l);
      assert l[0..|l|] == l;
    }
  }

  lemma NewFullIsLatest(w: World, t: nat, commit: nat)
    requires Inv(w) && t > w.now
    ensures var store := BackupNow(w.manager, t, commit, true).store;
            Stored(store, FullAt(t, commit)) && forall id :: id in store && id != FullAt(t, commit).id ==> store[id].timestamp < t
  {
  }

  /** The newest full backup survives a complete retention pass exactly when at least one backup is to be kept. */
  lemma RetentionKeepsNewest(c: Config, w: World, ev: Event)
    requires Inv(w) && Allowed(c, w, ev) && ev.Tick? && ev.stored && Due(w.manager, c, ev.t) && ev.done >= |ev.listing|
    ensures Stored(Next(c, w, ev).manager.store, FullAt(ev.t, ev.commit)) <==> c.maxBackups >= 1
  {
    NewFullIsLatest(w, ev.t, ev.commit);
    CompleteCleanup(BackupNow(w.manager, ev.t, ev.commit, true).store, ev.listing, c.maxBackups, ev.done, FullAt(ev.t, ev.commit));
  }

  // ---------------------------------------------------------------- incremental backups

  lemma {:induction false} FirstFullIsNewest(l: seq<Meta>, f: Meta)
    requires f in l && f.kind.Full?
    requires forall i, j :: 0 <= i < j < |l| ==> l[i].timestamp >= l[j].timestamp
    requires forall m :: m in l && m.kind.Full? && m != f ==> m.timestamp < f.timestamp
    ensures FirstFull(l) == Some(f)
  {
    if l[0] != f {
      var k :| 0 <= k < |l| && l[k] == f;
      assert l[0].timestamp >= l[k].timestamp && l[0] in l;
      FirstFullIsNewest(l[1..], f);
    }
  }

  lemma BaseIsNewest(w: World, f: Meta, l: seq<Meta>)
    requires StoreFits(w) && NewestFull(w, f) && Listing(w.manager.store, l)
    ensures FirstFull(l) == Some(f)
  {
    forall m | m in l && m.kind.Full? && m != f
      ensures m.timestamp < f.timestamp
    {
      assert Stored(w.manager.store, m);
      assert m.id != f.id;
    }
    FirstFullIsNewest(l, f);
  }

  lemma EmptyHasNoBase(l: seq<Meta>)
    requires Listing(map[], l)
    ensures l == []
  {
    HasFirst(l);
  }

  lemma HasFirst(s: seq<Meta>)
    ensures s != [] ==> s[0] in s
  {
  }

  /** `x` is `w` after the incremental `meta` was stored. */
  ghost predicate Appended(w: World, f: Meta, meta: Meta, x: World) {
    && meta.id.IncrementalId? && meta.timestamp > w.now
    && meta.kind.Incremental? && meta.kind.base == f.id && meta.kind.from == w.manager.lastIndex < meta.kind.to
    && x.manager.store == w.manager.store[meta.id := meta] && x.manager.lastIndex == meta.kind.to
    && x.now == meta.timestamp && x.chain == w.chain + [meta] && x.newest == w.newest
  }

  lemma AppendKeepsChain(w: World, f: Meta, meta: Meta, x: World)
    requires ChainFits(w, f) && f.timestamp <= w.now && Appended(w, f, meta, x)
    ensures ChainFits(x, f)
  {
    assert x.chain[..|x.chain| - 1] == w.chain;
  }

  ghost predicate UsedAgain(chain: seq<Meta>, i: nat)
    requires i < |chain|
  {
    exists j :: i < j < |chain| && chain[j].id == chain[i].id
  }

  lemma UsedAgainAppends(chain: seq<Meta>, meta: Meta, i: nat)
    requires i < |chain|
    ensures UsedAgain(chain + [meta], i) <==> UsedAgain(chain, i) || meta.id == chain[i].id
  {
    var more := chain + [meta];
    assert more[|chain|] == meta && more[i] == chain[i];
    assert forall j :: i < j < |chain| ==> more[j] == chain[j];
  }

  lemma OlderAfterAppend(w: World, f: Meta, meta: Meta, x: World, i: nat)
    requires ChainFits(w, f) && Appended(w, f, meta, x) && i < |w.chain|
    ensures Stored(x.manager.store, w.chain[i]) <==> Stored(w.manager.store, w.chain[i]) && meta.id != w.chain[i].id
  {
    assert w.chain[i].timestamp <= w.now < meta.timestamp;
  }

  lemma StoredAfterAppend(w: World, f: Meta, meta: Meta, x: World, i: nat)
    requires ChainFits(w, f) && ChainStored(w, f) && Appended(w, f, meta, x) && i < |x.chain|
    ensures Stored(x.manager.store, x.chain[i]) <==> !UsedAgain(x.chain, i)
  {
    if i < |w.chain| {
      OlderAfterAppend(w, f, meta, x, i);
      UsedAgainAppends(w.chain, meta, i);
    }
  }

  lemma AppendKeepsStored(w: World, f: Meta, meta: Meta, x: World)
    requires ChainFits(w, f) && ChainStored(w, f) && Appended(w, f, meta, x)
    ensures ChainStored(x, f)
  {
    forall i | 0 <= i < |x.chain|
      ensures Stored(x.manager.store, x.chain[i]) <==> !UsedAgain(x.chain, i)
    {
      StoredAfterAppend(w, f, meta, x, i);
    }
  }

  lemma AppendKeepsStore(w: World, f: Meta, meta: Meta, x: World)
    requires StoreFits(w) && NewestFull(w, f) && Appended(w, f, meta, x)
    ensures StoreFits(x) && NewestFull(x, f)
  {
  }

  lemma AppendKeepsInv(w: World, f: Meta, meta: Meta, x: World)
    requires Inv(w) && w.newest == Some(f) && Appended(w, f, meta, x)
    ensures Inv(x)
  {
    AppendKeepsStore(w, f, meta, x);
    AppendKeepsChain(w, f, meta, x);
    AppendKeepsStored(w, f, meta, x);
  }

  lemma IncrementKeepsInv(c: Config, w: World, ev: Event)
    requires Inv(w) && Allowed(c, w, ev) && ev.Increment?
    ensures Inv(Next(c, w, ev))
  {
    if w.newest == None {
      EmptyHasNoBase(ev.listing);
      LaterKeepsInv(w, ev.t);
    } else {
      var f := w.newest.value;
      BaseIsNewest(w, f, ev.listing);
      if BackupIncremental(w.manager, ev.listing, ev.t, ev.index, ev.stored).1 == None {
        AppendKeepsInv(w, f, IncrementalAt(w.manager, f.id, ev.t, ev.index.value), Next(c, w, ev));
      } else {
        LaterKeepsInv(w, ev.t);
      }
    }
  }

  /** An operation that changes nothing. */
  lemma LaterKeepsInv(w: World, t: nat)
    requires Inv(w) && t > w.now
    ensures Inv(w.(now := t))
  {
  }

  lemma NextKeepsInv(c: Config, w: World, ev: Event)
    requires c.maxBackups >= 1 && Inv(w) && Allowed(c, w, ev)
    ensures Inv(Next(c, w, ev))
  {
    match ev
    case Now(t, commit, stored) =>
      if stored { FullKeepsInv(w, t, commit); }
    case Tick(t, commit, stored, done, listing) =>
      if stored && Due(w.manager, c, t) {
        FullKeepsInv(w, t, commit);
        var m := BackupNow(w.manager, t, commit, true);
        var full := World(m, t, Some(FullAt(t, commit)), []);
        CleanupKeeps(m.store, listing, c.maxBackups, done, FullAt(t, commit));
        ShrinkKeepsInv(full, Cleanup(m.store, listing, c.maxBackups, done));
      }
    case Increment(_, _, _, _) => IncrementKeepsInv(c, w, ev);
  }

  lemma {:induction false} RunKeepsInv(c: Config, w: World, events: seq<Event>)
    requires c.maxBackups >= 1 && Inv(w) && AllowedRun(c, w, events)
    ensures Inv(After(c, w, events))
    decreases |events|
  {
    if events != [] {
      NextKeepsInv(c, w, events[0]);
      RunKeepsInv(c, Next(c, w, events[0]), events[1..]);
    }
  }

  // ---------------------------------------------------------------- the results

  /** The stored backups later than `f`, oldest first. */
  ghost predicate Since(store: Store, f: Meta, pieces: seq<Meta>) {
    && (forall m :: m in pieces <==> Stored(store, m) && m.timestamp > f.timestamp)
    && Increasing(pieces)
  }

  ghost predicate DistinctIds(chain: seq<Meta>) {
    forall i, j :: 0 <= i < j < |chain| ==> chain[i].id != chain[j].id
  }

  ghost predicate Increasing(s: seq<Meta>) {
    forall i, j :: 0 <= i < j < |s| ==> s[i].timestamp < s[j].timestamp
  }

  lemma FrontHas(s: seq<Meta>, m: Meta)
    requires s != [] && Increasing(s)
    ensures m in s[..|s| - 1] <==> m in s && m != s[|s| - 1]
  {
    assert s == s[..|s| - 1] + [s[|s| - 1]];
  }

  /** The last of an increasing sequence is its latest. */
  lemma LastIsLatest(s: seq<Meta>, m: Meta)
    requires Increasing(s) && m in s
    ensures m == s[|s| - 1] || m.timestamp < s[|s| - 1].timestamp
  {
    var i :| 0 <= i < |s| && s[i] == m;
  }

  lemma SameLast(a: seq<Meta>, b: seq<Meta>)
    requires Increasing(a) && Increasing(b) && a != [] && b != [] && forall m :: m in a <==> m in b
    ensures a[|a| - 1] == b[|b| - 1]
  {
    assert a[|a| - 1] in a && b[|b| - 1] in b;
    LastIsLatest(a, b[|b| - 1]);
    LastIsLatest(b, a[|a| - 1]);
  }

  lemma {:induction false} SameIncreasing(a: seq<Meta>, b: seq<Meta>)
    requires Increasing(a) && Increasing(b) && forall m :: m in a <==> m in b
    ensures a == b
  {
    HasFirst(a);
    HasFirst(b);
    if a != [] && b != [] {
      SameLast(a, b);
      var p, q := a[..|a| - 1], b[..|b| - 1];
      forall m: Meta
        ensures m in p <==> m in q
      {
        FrontHas(a, m);
        FrontHas(b, m);
      }
      SameIncreasing(p, q);
      assert a == p + [a[|a| - 1]] && b == q + [b[|b| - 1]];
    }
  }

  lemma AllStored(w: World, f: Meta, pieces: seq<Meta>)
    requires StoreFits(w) && ChainFits(w, f) && ChainStored(w, f) && Since(w.manager.store, f, pieces) && DistinctIds(w.chain)
    ensures pieces == w.chain
  {
    forall m | m in w.chain
      ensures m in pieces
    {
      var i :| 0 <= i < |w.chain| && w.chain[i] == m;
      assert Stored(w.manager.store, w.chain[i]);
    }
    forall m | m in pieces
      ensures m in w.chain
    {
      assert m.id in w.manager.store && w.manager.store[m.id] == m;
    }
    SameIncreasing(pieces, w.chain);
  }

  /** A piece that was overwritten leaves its first index uncovered. */
  lemma OverwrittenLeavesGap(chain: seq<Meta>, lo: nat, hi: nat, i: nat, pieces: seq<Meta>)
    requires Tiles(chain, lo, hi) && i < |chain| && forall m :: m in pieces ==> m in chain && m != chain[i]
    ensures !Tiles(pieces, lo, hi)
  {
    if Tiles(pieces, lo, hi) {
      TilesAreOrdered(chain, lo, hi, i);
      var m := TilesCover(pieces, lo, hi, chain[i].kind.from);
      var j :| 0 <= j < |chain| && chain[j] == m;
      CoveredOnce(chain, lo, hi, i, j);
    }
  }

  lemma OverwrittenIsGone(w: World, f: Meta, pieces: seq<Meta>, i: nat)
    requires ChainStored(w, f) && Since(w.manager.store, f, pieces) && i < |w.chain| && !Stored(w.manager.store, w.chain[i])
    ensures forall m :: m in pieces ==> m in w.chain && m != w.chain[i]
  {
  }

  /** In every run that keeps at least one backup the newest full backup is in the store, and the stored backups after
      it tile the log from its index to `last_backup_index` without gap or overlap exactly when no two
      incrementals since then were made in the same second. */
  lemma ChainTilesExactlyWhenSecondsDiffer(c: Config, events: seq<Event>, pieces: seq<Meta>)
    requires c.maxBackups >= 1 && AllowedRun(c, Start(), events) && After(c, Start(), events).newest.Some?
    requires Since(After(c, Start(), events).manager.store, After(c, Start(), events).newest.value, pieces)
    ensures var w := After(c, Start(), events);
            && Stored(w.manager.store, w.newest.value)
            && (Tiles(pieces, w.newest.value.raftIndex, w.manager.lastIndex) <==> DistinctIds(w.chain))
  {
    RunKeepsInv(c, Start(), events);
    var w := After(c, Start(), events);
    var f := w.newest.value;
    if DistinctIds(w.chain) {
      AllStored(w, f, pieces);
    } else {
      var i, j :| 0 <= i < j < |w.chain| && w.chain[i].id == w.chain[j].id;
      OverwrittenIsGone(w, f, pieces, i);
      OverwrittenLeavesGap(w.chain, f.raftIndex, w.manager.lastIndex, i, pieces);
    }
  }

  // ---------------------------------------------------------------- point-in-time recovery

  /** The selection of `restore_to_point_in_time`: base backup and incrementals, folded over the listing. */
  function Selection(l: seq<Meta>, target: nat): (Option<Meta>, seq<Meta>) {
    if l == [] then (None, [])
    else
      var (base, picked) := Selection(l[..|l| - 1], target);
      var m := l[|l| - 1];
      if m.timestamp > target then (base, picked)
      else if m.kind.Full? then (Some(m), [])
      else if m.kind.Incremental? && base.Some? then (base, picked + [m])
      else (base, picked)
  }

  /** The selection loop. */
  method SelectForRecovery(l: seq<Meta>, target: nat) returns (base: Option<Meta>, picked: seq<Meta>)
    ensures (base, picked) == Selection(l, target)
  {
    base, picked := None, [];
    for i := 0 to |l|
      invariant (base, picked) == Selection(l[..i], target)
    {
      assert l[..i + 1][..i] == l[..i];
      if l[i].timestamp <= target {
        match l[i].kind
        case Full =>
          base, picked := Some(l[i]), [];
        case Incremental(_, _, _) =>
          if base.Some? {
            picked := picked + [l[i]];
          }
        case Snapshot(_, _) =>
      }
    }
    assert l[..|l|] == l;
  }

  predicate Candidate(m: Meta, target: nat) {
    m.kind.Full? && m.timestamp <= target
  }

  /** As `list` sorts: newest first, equal instants in any order. */
  ghost predicate Descends(l: seq<Meta>) {
    forall i, j :: 0 <= i < j < |l| ==> l[i].timestamp >= l[j].timestamp
  }

  ghost predicate NewestFirst(l: seq<Meta>) {
    forall i, j :: 0 <= i < j < |l| ==> l[i].timestamp > l[j].timestamp
  }

  lemma LastIsOldest(l: seq<Meta>)
    requires l != [] && Descends(l)
    ensures Descends(l[..|l| - 1])
    ensures forall m :: m in l[..|l| - 1] ==> m.timestamp >= l[|l| - 1].timestamp
    ensures forall m :: m in l <==> m in l[..|l| - 1] || m == l[|l| - 1]
  {
    assert l == l[..|l| - 1] + [l[|l| - 1]];
  }

  /** Folded over a listing that runs from the newest to the oldest backup, the selection ends with the oldest full
      backup up to the target. */
  lemma {:induction false} SelectionIsOldest(l: seq<Meta>, target: nat)
    requires Descends(l)
    ensures var base := Selection(l, target).0;
            && (base == None <==> forall m :: m in l ==> !Candidate(m, target))
            && (base.Some? ==> base.value in l && Candidate(base.value, target)
                               && forall m :: m in l && Candidate(m, target) ==> base.value.timestamp <= m.timestamp)
  {
    if l != [] {
      LastIsOldest(l);
      SelectionIsOldest(l[..|l| - 1], target);
      var base, last := Selection(l[..|l| - 1], target).0, l[|l| - 1];
      if Candidate(last, target) {
        assert Selection(l, target).0 == Some(last);
      } else {
        assert Selection(l, target).0 == base;
      }
    }
  }

  /** And it applies to that base no incremental that is newer, and every one that is older. */
  lemma {:induction false} SelectedAreOlder(l: seq<Meta>, target: nat)
    requires Descends(l)
    ensures var (base, picked) := Selection(l, target);
            if base == None then picked == []
            else
              && (forall m :: m in picked ==> m in l && m.kind.Incremental? && m.timestamp <= base.value.timestamp)
              && (forall m :: m in l && m.kind.Incremental? && m.timestamp < base.value.timestamp ==> m in picked)
  {
    if l != [] {
      var front, last := l[..|l| - 1], l[|l| - 1];
      LastIsOldest(l);
      SelectionIsOldest(front, target);
      SelectedAreOlder(front, target);
      if Selection(front, target).0.Some? {
        assert Selection(front, target).0.value.timestamp >= last.timestamp;
      }
    }
  }

  /** What recovery is for: the latest full backup up to the target, and exactly the incrementals made between it and the
      target. */
  ghost predicate Recovers(l: seq<Meta>, target: nat, base: Meta, picked: seq<Meta>) {
    && base in l && Candidate(base, target)
    && (forall m :: m in l && Candidate(m, target) ==> m.timestamp <= base.timestamp)
    && (forall m :: m in picked <==> m in l && m.kind.Incremental? && base.timestamp < m.timestamp <= target)
  }

  predicate Usable(m: Meta, target: nat) {
    m.timestamp <= target && !m.kind.Snapshot?
  }

  lemma SameInstant(l: seq<Meta>, a: Meta, b: Meta)
    requires NewestFirst(l) && a in l && b in l && a.timestamp == b.timestamp
    ensures a == b
  {
    var i, j :| 0 <= i < |l| && 0 <= j < |l| && l[i] == a && l[j] == b;
  }

  /** A correct recovery leaves nothing but its base to recover from. */
  lemma OnlyTheBase(l: seq<Meta>, target: nat, m: Meta)
    requires NewestFirst(l) && Selection(l, target).0.Some? && m in l && Usable(m, target)
    requires Recovers(l, target, Selection(l, target).0.value, Selection(l, target).1)
    ensures m == Selection(l, target).0.value
  {
    SelectionIsOldest(l, target);
    SelectedAreOlder(l, target);
    var base := Selection(l, target).0;
    assert m.timestamp == base.value.timestamp by {
      assert m.kind.Full? ==> Candidate(m, target);
    }
    SameInstant(l, m, base.value);
  }

  /** Recovery does what it is for exactly when there is nothing to choose: a single full backup, and no incremental, up to
      the target. */
  lemma RecoversExactlyWhenAlone(l: seq<Meta>, target: nat)
    requires NewestFirst(l) && exists m :: m in l && Candidate(m, target)
    ensures Selection(l, target).0.Some?
    ensures Recovers(l, target, Selection(l, target).0.value, Selection(l, target).1) <==>
              forall a, b :: a in l && b in l && Usable(a, target) && Usable(b, target) ==> a == b
  {
    SelectionIsOldest(l, target);
    SelectedAreOlder(l, target);
    var (base, picked) := Selection(l, target);
    if Recovers(l, target, base.value, picked) {
      forall a, b | a in l && b in l && Usable(a, target) && Usable(b, target)
        ensures a == b
      {
        OnlyTheBase(l, target, a);
        OnlyTheBase(l, target, b);
      }
    } else if forall a, b :: a in l && b in l && Usable(a, target) && Usable(b, target) ==> a == b {
      assert Usable(base.value, target);
      assert forall m :: m in picked ==> m in l && Usable(m, target);
      assert forall m :: m in l && Candidate(m, target) ==> Usable(m, target);
      assert forall m :: m in l && m.kind.Incremental? && m.timestamp <= target ==> Usable(m, target);
    }
  }

  /** Two full backups before the target: recovery starts from the older. */
  lemma RecoversOlder()
    ensures var older, newer := FullAt(1 * SECOND, 1), FullAt(2 * SECOND, 2);
            Selection([newer, older], 3 * SECOND) == (Some(older), [])
  {
    var older, newer := FullAt(1 * SECOND, 1), FullAt(2 * SECOND, 2);
    assert [newer, older][..1] == [newer] && [newer][..0] == [];
    assert Selection([], 3 * SECOND) == (None, []);
    assert Selection([newer], 3 * SECOND) == (Some(newer), []);
  }

  /** An incremental made after the only full backup: recovery leaves it out. */
  lemma RecoversWithoutIncrement()
    ensures var full := FullAt(1 * SECOND, 1);
            var later := Meta(IncrementalId(2), 2 * SECOND, Incremental(full.id, 1, 2), 2);
            Selection([later, full], 3 * SECOND) == (Some(full), [])
  {
    var full := FullAt(1 * SECOND, 1);
    var later := Meta(IncrementalId(2), 2 * SECOND, Incremental(full.id, 1, 2), 2);
    assert [later, full][..1] == [later] && [later][..0] == [];
    assert Selection([], 3 * SECOND) == (None, []);
    assert Selection([later], 3 * SECOND) == (None, []);
  }

  lemma StoreListsNewestFirst(w: World, l: seq<Meta>)
    requires StoreFits(w) && Listing(w.manager.store, l)
    ensures NewestFirst(l)
  {
    forall i, j | 0 <= i < j < |l|
      ensures l[i].timestamp > l[j].timestamp
    {
      assert l[i] in l && l[j] in l;
      assert l[i].id != l[j].id;
    }
  }

  /** In every run, what `list` returns runs strictly from newest to oldest. */
  lemma ListingIsNewestFirst(c: Config, events: seq<Event>, l: seq<Meta>)
    requires c.maxBackups >= 1 && AllowedRun(c, Start(), events) && Listing(After(c, Start(), events).manager.store, l)
    ensures NewestFirst(l)
  {
    RunKeepsInv(c, Start(), events);
    StoreListsNewestFirst(After(c, Start(), events), l);
  }

  // ---------------------------------------------------------------- a gap

  /** A full backup and two incrementals within its second. */
  function GapRun(): seq<Event> {
    var full := FullAt(1, 0);
    var first := Meta(IncrementalId(0), 2, Incremental(full.id, 0, 1), 1);
    [Now(1, 0, true), Increment(2, Some(1), true, [full]), Increment(3, Some(2), true, [first, full])]
  }

  /** The first incremental is gone: the store covers the log from 1 to 2 only. */
  lemma SecondOverwritesFirst(c: Config)
    ensures AllowedRun(c, Start(), GapRun())
    ensures var w := After(c, Start(), GapRun());
            var second := Meta(IncrementalId(0), 3, Incremental(FullId(0), 1, 2), 2);
            && w.manager.store == map[FullId(0) := FullAt(1, 0), IncrementalId(0) := second]
            && w.newest == Some(FullAt(1, 0)) && w.manager.lastIndex == 2
            && Since(w.manager.store, FullAt(1, 0), [second])
            && !Tiles([second], 0, 2)
  {
    var full := FullAt(1, 0);
    assert full == Meta(FullId(0), 1, Full, 0);
    var first := Meta(IncrementalId(0), 2, Incremental(full.id, 0, 1), 1);
    var second := Meta(IncrementalId(0), 3, Incremental(full.id, 1, 2), 2);
    var events := GapRun();
    var w1 := Next(c, Start(), events[0]);
    assert w1.manager == Manager(map[FullId(0) := full], Some(1), 0);
    assert Listing(w1.manager.store, [full]);
    var w2 := Next(c, w1, events[1]);
    assert w2.manager == Manager(map[FullId(0) := full, IncrementalId(0) := first], Some(2), 1);
    assert Listing(w2.manager.store, [first, full]);
    var w3 := Next(c, w2, events[2]);
    assert FirstFull([first, full]) == FirstFull([first, full][1..]);
    assert w3.manager == Manager(map[FullId(0) := full, IncrementalId(0) := second], Some(3), 2);
    assert events[1..][0] == events[1] && events[1..][1..] == events[2..] && events[2..][0] == events[2] && events[2..][1..] == [];
    assert AllowedRun(c, w3, []) && After(c, w3, []) == w3;
    assert AllowedRun(c, w2, events[2..]) && After(c, w2, events[2..]) == w3;
    assert AllowedRun(c, w1, events[1..]) && After(c, w1, events[1..]) == w3;
  }
}
