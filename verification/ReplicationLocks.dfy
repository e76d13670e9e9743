/** The queue and tracker locks of the replicator: mutual exclusion, no circular wait, and progress. */
module ReplicationLocks {
  import opened Outcomes
  import opened ReplicationProtocol

  ghost predicate Excluded(w: World) {
    forall t, u, a, b :: Holds(w, t, a) && Holds(w, u, b) && Conflict(a, b) ==> t == u
  }

  /** A worker that advances holds nothing, and no other thread is touched. */
  lemma AdvancingLetsGo(w: World, v: World, i: nat, next: Option<Pc>, u: Thread, l: Lock)
    requires i in w.workers && v.workers == Advance(w, i, next).workers
    requires v.clients == w.clients && v.observers == w.observers && v.dispatcher == w.dispatcher
    requires Holds(v, u, l)
    ensures Holds(w, u, l)
  {
  }

  /** Only an acquisition gives a thread a lock, and only the one it wanted. */
  lemma LocksGained(e: Env, w: World, ev: Event, u: Thread, l: Lock)
    requires Possible(e, w, ev) && Holds(Next(e, w, ev), u, l)
    ensures Holds(w, u, l) || (ev == Acquire(u) && Wants(w, u) == Some(l))
  {
    match ev
    case WorkerActs(i) => WorkerActingLocks(e, w, i, u, l);
    case Transfers(i, transfer) => TransferringLocks(e, w, i, transfer, u, l);
    case Checks(i, check) => CheckingLocks(e, w, i, check, u, l);
    case ClientActs(c) => ClientActingLocks(e, w, c, u, l);
    case Drain => DrainingLocks(e, w, u, l);
    case Acquire(t) => EnteringLocks(w, t, u, l);
    case _ =>
  }

  /** And it does give it. */
  lemma AcquisitionGives(e: Env, w: World, t: Thread)
    requires Possible(e, w, Acquire(t))
    ensures Holds(Next(e, w, Acquire(t)), t, Wants(w, t).value)
  {
  }

  lemma EnteringLocks(w: World, t: Thread, u: Thread, l: Lock)
    requires Wants(w, t).Some? && Holds(Enter(w, t), u, l)
    ensures Holds(w, u, l) || (u == t && Wants(w, u) == Some(l))
  {
  }

  lemma WorkerActingLocks(e: Env, w: World, i: nat, u: Thread, l: Lock)
    requires i in w.workers && Holds(WorkerAct(e, w, i), u, l)
    ensures Holds(w, u, l)
  {
    AdvancingLetsGo(w, WorkerAct(e, w, i), i, WorkerEffect(e, w, w.workers[i].task, w.workers[i].pc).next, u, l);
  }

  lemma TransferringLocks(e: Env, w: World, i: nat, t: Transfer, u: Thread, l: Lock)
    requires i in w.workers && (t.Stored? ==> w.workers[i].task.backupId in e.primary)
    requires Holds(TransferAct(e, w, i, t), u, l)
    ensures Holds(w, u, l)
  {
    AdvancingLetsGo(w, TransferAct(e, w, i, t), i, Some(TransferAct(e, w, i, t).workers[i].pc), u, l);
  }

  lemma CheckingLocks(e: Env, w: World, i: nat, check: Check, u: Thread, l: Lock)
    requires i in w.workers && Holds(CheckAct(e, w, i, check), u, l)
    ensures Holds(w, u, l)
  {
    var v := CheckAct(e, w, i, check);
    AdvancingLetsGo(w, v, i, if check == NoStorage then None else Some(v.workers[i].pc), u, l);
  }

  lemma ClientActingLocks(e: Env, w: World, c: nat, u: Thread, l: Lock)
    requires c in w.clients && w.clients[c].pc in {InQueue, InTracker} && Holds(ClientAct(e, w, c), u, l)
    ensures Holds(w, u, l)
  {
  }

  lemma DrainingLocks(e: Env, w: World, u: Thread, l: Lock)
    requires w.dispatcher == Draining && Holds(DrainAct(e, w), u, l)
    ensures Holds(w, u, l)
  {
  }

  lemma ExclusionKept(e: Env, w: World, ev: Event)
    requires Excluded(w) && Possible(e, w, ev)
    ensures Excluded(Next(e, w, ev))
  {
    var v := Next(e, w, ev);
    forall t, u, a, b | Holds(v, t, a) && Holds(v, u, b) && Conflict(a, b)
      ensures t == u
    {
      LocksGained(e, w, ev, t, a);
      LocksGained(e, w, ev, u, b);
      assert Conflict(b, a);
    }
  }

  // ---------------------------------------------------------------- no circular wait

  /** A thread that holds a lock while it waits is a client holding the queue and waiting for the tracker. */
  lemma WaitingHolder(w: World, t: Thread, held: Lock)
    requires Holds(w, t, held) && Wants(w, t).Some?
    ensures held == Queue && Wants(w, t) == Some(Exclusive)
  {
  }

  lemma NoThreeWaits(w: World, t: Thread, u: Thread, v: Thread, x: Thread)
    ensures !(WaitsFor(w, t, u) && WaitsFor(w, u, v) && WaitsFor(w, v, x))
  {
    if WaitsFor(w, t, u) && WaitsFor(w, u, v) {
      var held :| Holds(w, u, held) && Conflict(Wants(w, t).value, held);
      WaitingHolder(w, u, held);
      var tracker :| Holds(w, v, tracker) && Conflict(Wants(w, u).value, tracker);
      if WaitsFor(w, v, x) {
        WaitingHolder(w, v, tracker);
      }
    }
  }

  ghost predicate WaitingCycle(w: World, chain: seq<Thread>) {
    && |chain| >= 2 && chain[0] == chain[|chain| - 1]
    && forall i :: 0 <= i < |chain| - 1 ==> WaitsFor(w, chain[i], chain[i + 1])
  }

  /** No threads wait in a circle, in any state whatever. */
  lemma NoWaitingCycle(w: World, chain: seq<Thread>)
    ensures !WaitingCycle(w, chain)
  {
    if WaitingCycle(w, chain) {
      var a, b := chain[0], chain[1];
      assert WaitsFor(w, a, b);
      if |chain| == 2 {
        NoThreeWaits(w, a, a, a, a);
      } else if |chain| == 3 {
        assert WaitsFor(w, b, chain[1 + 1]);
        NoThreeWaits(w, a, b, a, b);
      } else {
        assert WaitsFor(w, b, chain[1 + 1]);
        assert WaitsFor(w, chain[2], chain[2 + 1]);
        NoThreeWaits(w, a, b, chain[2], chain[3]);
      }
    }
  }

  // ---------------------------------------------------------------- progress

  ghost predicate AtWork(w: World) {
    w.workers != map[] || w.clients != map[] || w.observers != map[] || w.dispatcher != Idle
  }

  /** The step by which the holder of a lock gets on. */
  lemma HolderActs(e: Env, w: World, t: Thread, l: Lock) returns (ev: Event)
    requires Holds(w, t, l) && Wants(w, t) == None
    ensures Possible(e, w, ev) && !ev.Submit? && !ev.Observe? && !ev.Tick?
  {
    match t
    case TheDispatcher => ev := Drain;
    case TheWorker(i) => ev := WorkerActs(i);
    case TheClient(c) => ev := ClientActs(c);
    case TheObserver(o) => ev := ObserverDone(o);
  }

  /** Whatever the state, as long as any thread is at work one of them can take a step: no deadlock. */
  lemma SomeThreadMoves(e: Env, w: World) returns (ev: Event)
    requires AtWork(w)
    ensures Possible(e, w, ev) && !ev.Submit? && !ev.Observe? && !ev.Tick?
  {
    if t, l :| Holds(w, t, l) && Wants(w, t) == None {
      ev := HolderActs(e, w, t, l);
    } else if t :| Wants(w, t).Some? && Wants(w, t).value != Queue {
      // Whoever holds the tracker waits for nothing, so nobody holds it.
      forall u, held | Holds(w, u, held)
        ensures held == Queue
      {
        WaitingHolder(w, u, held);
      }
      ev := Acquire(t);
    } else if t :| Wants(w, t) == Some(Queue) {
      // Whoever holds the queue and waits, waits for the tracker.
      assert Free(w, Queue) by {
        forall u, held | Holds(w, u, held)
          ensures Wants(w, u) == Some(Exclusive)
        {
          WaitingHolder(w, u, held);
        }
      }
      ev := Acquire(t);
    } else {
      ev := UnlockedStep(e, w);
    }
  }

  lemma UnlockedStep(e: Env, w: World) returns (ev: Event)
    requires AtWork(w)
    requires forall t :: Wants(w, t) == None
    requires forall t, l :: !Holds(w, t, l)
    ensures Possible(e, w, ev) && !ev.Submit? && !ev.Observe? && !ev.Tick?
  {
    if w.workers != map[] {
      var i :| i in w.workers;
      var pc := w.workers[i].pc;
      assert Need(pc) == None by {
        var wanted := Wants(w, TheWorker(i));
        if Need(pc).Some? {
          var held := Holds(w, TheWorker(i), Need(pc).value);
          assert false;
        }
      }
      ev := if pc == Transferring then Transfers(i, Broken(None)) else Checks(i, ReadFailed);
    } else if w.clients != map[] {
      var c :| c in w.clients;
      var wanted, held := Wants(w, TheClient(c)), Holds(w, TheClient(c), Queue);
      assert false;
    } else if w.observers != map[] {
      var o :| o in w.observers;
      var wanted, held := Wants(w, TheObserver(o)), Holds(w, TheObserver(o), Shared);
      assert false;
    } else {
      assert Wants(w, TheDispatcher) == None && !Holds(w, TheDispatcher, Queue);
      ev := BatchDone;
    }
  }
}
