/** The minimum interval of automatic backups, over whole runs. */
module BackupInterval {
  import opened Outcomes
  import opened BackupChain
  import opened BackupRuns

  /** The state before the event at `i`, in a run from the start. */
  function Before(c: Config, events: seq<Event>, i: nat): World
    requires i <= |events|
  {
    After(c, Start(), events[..i])
  }

  /** The event at `i` makes a backup: it changes the manager. */
  predicate Acts(c: Config, events: seq<Event>, i: nat)
    requires i < |events|
  {
    Before(c, events, i + 1).manager != Before(c, events, i).manager
  }

  lemma {:induction false} RunAt(c: Config, w: World, events: seq<Event>, i: nat)
    requires AllowedRun(c, w, events) && i < |events|
    ensures Allowed(c, After(c, w, events[..i]), events[i])
    ensures After(c, w, events[..i + 1]) == Next(c, After(c, w, events[..i]), events[i])
    decreases i
  {
    if i == 0 {
      assert events[..1][1..] == [];
    } else {
      var rest := events[1..];
      RunAt(c, Next(c, w, events[0]), rest, i - 1);
      assert events[..i][1..] == rest[..i - 1] && events[..i + 1][1..] == rest[..i];
    }
  }

  /** An event takes its instant; a backup becomes the last one, and nothing else is recorded. */
  lemma StepSets(c: Config, w: World, ev: Event)
    requires Allowed(c, w, ev) && (w.manager.lastBackup.Some? ==> w.manager.lastBackup.value <= w.now)
    ensures var x := Next(c, w, ev);
            x.now == ev.t > w.now && (x.manager == w.manager || x.manager.lastBackup == Some(ev.t))
  {
  }

  /** `last_backup` is the instant of the latest event that made a backup, if any did. */
  ghost predicate LastKnown(c: Config, events: seq<Event>, n: nat)
    requires n <= |events|
  {
    var w := Before(c, events, n);
    && (forall i :: 0 <= i < n ==> events[i].t <= w.now)
    && (w.manager.lastBackup == None ==> forall i :: 0 <= i < n ==> !Acts(c, events, i))
    && (w.manager.lastBackup.Some? ==>
          && w.manager.lastBackup.value <= w.now
          && (exists i :: 0 <= i < n && Acts(c, events, i) && events[i].t == w.manager.lastBackup.value)
          && forall i :: 0 <= i < n && Acts(c, events, i) ==> events[i].t <= w.manager.lastBackup.value)
  }

  lemma {:induction false} LastIsLatest(c: Config, events: seq<Event>, n: nat)
    requires AllowedRun(c, Start(), events) && n <= |events|
    ensures LastKnown(c, events, n)
  {
    if n == 0 {
      assert events[..0] == [];
    } else {
      LastIsLatest(c, events, n - 1);
      RunAt(c, Start(), events, n - 1);
      StepSets(c, Before(c, events, n - 1), events[n - 1]);
      LatestStep(c, events, n - 1);
    }
  }

  lemma LatestStep(c: Config, events: seq<Event>, n: nat)
    requires n < |events| && LastKnown(c, events, n)
    requires var w, x := Before(c, events, n), Before(c, events, n + 1);
             x.now == events[n].t > w.now && (x.manager == w.manager || x.manager.lastBackup == Some(events[n].t))
    ensures LastKnown(c, events, n + 1)
  {
    var w, x := Before(c, events, n), Before(c, events, n + 1);
    if Acts(c, events, n) {
      assert x.manager.lastBackup == Some(events[n].t);
    } else if w.manager.lastBackup.Some? {
      var i :| 0 <= i < n && Acts(c, events, i) && events[i].t == w.manager.lastBackup.value;
      assert 0 <= i < n + 1 && Acts(c, events, i);
    }
  }

  /** Over every run: a tick makes a backup exactly when the store takes it and every backup made before, by whatever
      operation, is at least the minimum interval ago. */
  lemma TickActsExactlyWhenDue(c: Config, events: seq<Event>, j: nat)
    requires AllowedRun(c, Start(), events) && j < |events| && events[j].Tick?
    ensures Acts(c, events, j) <==>
              events[j].stored && forall i :: 0 <= i < j && Acts(c, events, i) ==> events[j].t >= events[i].t + c.minInterval
  {
    LastIsLatest(c, events, j);
    RunAt(c, Start(), events, j);
    var w := Before(c, events, j);
    if w.manager.lastBackup.Some? {
      var i :| 0 <= i < j && Acts(c, events, i) && events[i].t == w.manager.lastBackup.value;
    }
  }

  /** A backup on demand is made exactly when the store takes it. */
  lemma NowActsExactlyWhenStored(c: Config, events: seq<Event>, j: nat)
    requires AllowedRun(c, Start(), events) && j < |events| && events[j].Now?
    ensures Acts(c, events, j) <==> events[j].stored
  {
    LastIsLatest(c, events, j);
    RunAt(c, Start(), events, j);
  }

  /** So two backups, the later by a tick, lie at least the minimum interval apart. */
  lemma TicksKeepInterval(c: Config, events: seq<Event>, i: nat, j: nat)
    requires AllowedRun(c, Start(), events) && i < j < |events| && events[j].Tick?
    requires Acts(c, events, i) && Acts(c, events, j)
    ensures events[j].t >= events[i].t + c.minInterval
  {
    TickActsExactlyWhenDue(c, events, j);
  }

  /** What a tick that acts leaves: the new full backup first among those kept, its index as the last one, and of the others
      only what was stored before. */
  lemma TickStoresFull(c: Config, events: seq<Event>, j: nat)
    requires c.maxBackups >= 1 && AllowedRun(c, Start(), events) && j < |events| && events[j].Tick? && Acts(c, events, j)
    ensures var ev := events[j];
            var x := Before(c, events, j + 1).manager;
            && Stored(x.store, Meta(FullId(ev.t / 1_000_000_000), ev.t, Full, ev.commit))
            && x.lastIndex == ev.commit && x.lastBackup == Some(ev.t)
            && forall id :: id in x.store && id != FullId(ev.t / 1_000_000_000) ==>
                 id in Before(c, events, j).manager.store && x.store[id] == Before(c, events, j).manager.store[id]
  {
    LastIsLatest(c, events, j);
    RunAt(c, Start(), events, j);
    var w, ev := Before(c, events, j), events[j];
    PrefixIsAllowed(c, Start(), events, j);
    RunKeepsInv(c, Start(), events[..j]);
    NewFullIsLatest(w, ev.t, ev.commit);
    CleanupKeeps(BackupNow(w.manager, ev.t, ev.commit, true).store, ev.listing, c.maxBackups, ev.done, FullAt(ev.t, ev.commit));
  }

  lemma {:induction false} PrefixIsAllowed(c: Config, w: World, events: seq<Event>, i: nat)
    requires AllowedRun(c, w, events) && i <= |events|
    ensures AllowedRun(c, w, events[..i])
    decreases i
  {
    if i > 0 {
      PrefixIsAllowed(c, Next(c, w, events[0]), events[1..], i - 1);
      assert events[..i][1..] == events[1..][..i - 1];
    }
  }
}
