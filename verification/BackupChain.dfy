/** Full and incremental backups, retention, and point-in-time selection (`backup_manager.rs`). */
module BackupChain {
  import opened Outcomes

  /** Instants are nanoseconds; backup ids show whole seconds. */
  const SECOND: nat := 1_000_000_000

  datatype Id = FullId(second: nat) | IncrementalId(second: nat)

  datatype Kind = Full | Incremental(base: Id, from: nat, to: nat) | Snapshot(index: nat, term: nat)

  datatype Meta = Meta(id: Id, timestamp: nat, kind: Kind, raftIndex: nat)

  type Store = map<Id, Meta>

  datatype Manager = Manager(store: Store, lastBackup: Option<nat>, lastIndex: nat)

  datatype Config = Config(maxBackups: nat, minInterval: nat)

  datatype Error = NoFullBackup | NoRaftState | NoNewChanges | StorageFailed

  // ---------------------------------------------------------------- the operations as values

  /** What `list` may return: every stored backup once, newest first, ties in any order. */
  ghost predicate Listing(store: Store, l: seq<Meta>) {
    && (forall m :: m in l <==> m.id in store && store[m.id] == m)
    && (forall i, j :: 0 <= i < j < |l| ==> l[i] != l[j] && l[i].timestamp >= l[j].timestamp)
  }

  function FirstFull(l: seq<Meta>): Option<Meta> {
    if l == [] then None else if l[0].kind.Full? then Some(l[0]) else FirstFull(l[1..])
  }

  function FullAt(t: nat, commit: nat): Meta {
    Meta(FullId(t / SECOND), t, Full, commit)
  }

  /** `perform_backup` and the two writes after it; `stored` says whether the store accepted the backup. */
  function BackupNow(m: Manager, t: nat, commit: nat, stored: bool): Manager {
    if !stored then m else Manager(m.store[FullId(t / SECOND) := FullAt(t, commit)], Some(t), commit)
  }

  function Without(store: Store, l: seq<Meta>): Store {
    if l == [] then store else Without(store, l[..|l| - 1]) - {l[|l| - 1].id}
  }

  /** `cleanup_old_backups`, stopped by a storage failure after `done` deletions. */
  function Cleanup(store: Store, l: seq<Meta>, max: nat, done: nat): Store {
    if |l| <= max then store
    else Without(store, l[max..if max + done < |l| then max + done else |l|])
  }

  function Due(m: Manager, c: Config, t: nat): bool {
    m.lastBackup.Some? ==> t >= m.lastBackup.value + c.minInterval
  }

  function IncrementalAt(m: Manager, base: Id, t: nat, commit: nat): Meta {
    Meta(IncrementalId(t / SECOND), t, Incremental(base, m.lastIndex, commit), commit)
  }

  /** `backup_incremental`; `commit` is the commit index of the Raft state, if there is one. */
  function BackupIncremental(m: Manager, l: seq<Meta>, t: nat, commit: Option<nat>, stored: bool): (Manager, Option<Error>) {
    var base := FirstFull(l);
    if base == None then (m, Some(NoFullBackup))
    else if commit == None then (m, Some(NoRaftState))
    else if commit.value <= m.lastIndex then (m, Some(NoNewChanges))
    else if !stored then (m, Some(StorageFailed))
    else
      var meta := IncrementalAt(m, base.value.id, t, commit.value);
      (Manager(m.store[meta.id := meta], Some(t), commit.value), None)
  }

  // ---------------------------------------------------------------- the object

  class BackupManager {
    const config: Config
    var store: Store
    var lastBackup: Option<nat>
    var lastIndex: nat

    function View(): Manager
      reads this
    {
      Manager(store, lastBackup, lastIndex)
    }

    constructor (config: Config)
      ensures this.config == config && View() == Manager(map[], None, 0)
    {
      this.config := config;
      store, lastBackup, lastIndex := map[], None, 0;
    }

    /** `list`: every stored backup, sorted newest first. */
    method List() returns (l: seq<Meta>)
      requires forall id :: id in store ==> store[id].id == id
      ensures Listing(store, l)
    {
      l := [];
      var rest := store.Keys;
      while rest != {}
        invariant rest <= store.Keys
        invariant forall m :: m in l <==> m.id in store && m.id !in rest && store[m.id] == m
        invariant forall i, j :: 0 <= i < j < |l| ==> l[i] != l[j] && l[i].timestamp >= l[j].timestamp
        invariant forall m, id :: m in l && id in rest ==> m.timestamp >= store[id].timestamp
      {
        var newest := NewestOf(rest);
        l := l + [store[newest]];
        rest := rest - {newest};
      }
    }

    method NewestOf(ids: set<Id>) returns (newest: Id)
      requires ids != {} && ids <= store.Keys
      ensures newest in ids && forall id :: id in ids ==> store[newest].timestamp >= store[id].timestamp
    {
      newest :| newest in ids;
      var rest := ids - {newest};
      while rest != {}
        invariant rest <= ids && newest in ids
        invariant forall id :: id in ids && id !in rest ==> store[newest].timestamp >= store[id].timestamp
      {
        var id :| id in rest;
        if store[id].timestamp > store[newest].timestamp {
          newest := id;
        }
        rest := rest - {id};
      }
    }

    method Backup(t: nat, commit: nat, stored: bool) returns (ok: bool)
      modifies this
      ensures View() == BackupNow(old(View()), t, commit, stored) && ok == stored
    {
      if !stored {
        return false;
      }
      var meta := FullAt(t, commit);
      store := store[meta.id := meta];
      lastBackup := Some(t);
      lastIndex := meta.raftIndex;
      ok := true;
    }

    method CleanupOldBackups(l: seq<Meta>, done: nat)
      modifies this`store
      ensures store == Cleanup(old(store), l, config.maxBackups, done)
    {
      if |l| > config.maxBackups {
        var end := if config.maxBackups + done < |l| then config.maxBackups + done else |l|;
        ghost var old_ := l[config.maxBackups..end];
        for i := config.maxBackups to end
          invariant store == Without(old(store), old_[..i - config.maxBackups])
        {
          assert old_[..i + 1 - config.maxBackups][..i - config.maxBackups] == old_[..i - config.maxBackups];
          store := store - {l[i].id};
        }
        assert old_[..end - config.maxBackups] == old_;
      }
    }

    /** The body of the automatic loop: a full backup when one is due, then retention. */
    method AutomaticTick(t: nat, commit: nat, stored: bool, done: nat) returns (ghost l: seq<Meta>)
      requires forall id :: id in store ==> store[id].id == id
      modifies this
      ensures !Due(old(View()), config, t) || !stored ==> View() == old(View())
      ensures Due(old(View()), config, t) && stored ==>
                var m := BackupNow(old(View()), t, commit, true);
                Listing(m.store, l) && View() == m.(store := Cleanup(m.store, l, config.maxBackups, done))
      ensures old(lastBackup).Some? && t < old(lastBackup).value + config.minInterval ==> View() == old(View())
      ensures stored && (old(lastBackup).Some? ==> t >= old(lastBackup).value + config.minInterval) ==> lastBackup == Some(t)
    {
      l := [];
      if Due(View(), config, t) {
        var ok := Backup(t, commit, stored);
        if ok {
          var backups := List();
          l := backups;
          CleanupOldBackups(backups, done);
        }
      }
    }

    method BackupIncrementally(t: nat, commit: Option<nat>, stored: bool) returns (r: Option<Error>, ghost l: seq<Meta>)
      requires forall id :: id in store ==> store[id].id == id
      modifies this
      ensures Listing(old(store), l) && (View(), r) == BackupIncremental(old(View()), l, t, commit, stored)
    {
      var backups := List();
      l := backups;
      var base := FindFull(backups);
      if base == None {
        return Some(NoFullBackup), l;
      }
      if commit == None {
        return Some(NoRaftState), l;
      }
      if commit.value <= lastIndex {
        return Some(NoNewChanges), l;
      }
      if !stored {
        return Some(StorageFailed), l;
      }
      var meta := IncrementalAt(View(), base.value.id, t, commit.value);
      store := store[meta.id := meta];
      lastIndex := commit.value;
      lastBackup := Some(t);
      r := None;
    }

    static method FindFull(l: seq<Meta>) returns (r: Option<Meta>)
      ensures r == FirstFull(l)
    {
      var i := 0;
      while i < |l|
        invariant 0 <= i <= |l| && FirstFull(l) == FirstFull(l[i..])
      {
        if l[i].kind.Full? {
          return Some(l[i]);
        }
        i := i + 1;
      }
      r := None;
    }
  }
}
