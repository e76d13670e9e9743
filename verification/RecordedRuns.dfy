/** Recording clients against a store that answers atomically: every interleaving of their lock sections. */
module RecordedRuns {
  import opened Outcomes
  import opened Linearizability

  /** A client inside `begin`, which has its id and keeps the id lock; waiting for the store; or about to `complete`. */
  datatype Client =
    | Beginning(id: nat, op: Operation, start: nat)
    | Calling(id: nat, op: Operation)
    | Served(id: nat, op: Operation, reply: Reply)

  /** A call that the store carried out, and when. */
  datatype Effect = Effect(id: nat, call: Call, at: nat)

  datatype World = World(
    entries: seq<Entry>, nextId: nat, idLock: Option<nat>, clients: map<nat, Client>, store: Store, now: nat,
    effects: seq<Effect>)

  datatype Event =
    | TakeId(c: nat, op: Operation)
    | Push(c: nat)
    | Serve(c: nat, reply: Reply, store: Store)
    | Finish(c: nat)
    | Wait(time: nat)

  predicate Allowed(w: World, ev: Event) {
    match ev
    case TakeId(c, op) => c !in w.clients && w.idLock.None? && !op.DeleteVm?
    case Push(c) => c in w.clients && w.clients[c].Beginning?
    case Serve(c, reply, store) =>
      c in w.clients && w.clients[c].Calling? && Legal(w.store, w.clients[c].op, reply, store)
    case Finish(c) => c in w.clients && w.clients[c].Served?
    case Wait(_) => true
  }

  function Next(w: World, ev: Event): World
    requires Allowed(w, ev)
  {
    match ev
    case TakeId(c, op) =>
      w.(nextId := w.nextId + 1, idLock := Some(c), clients := w.clients[c := Beginning(w.nextId, op, w.now)])
    case Push(c) =>
      var id, op := w.clients[c].id, w.clients[c].op;
      w.(entries := w.entries + [Entry(id, op, w.clients[c].start, None, None, c)], idLock := None, clients := w.clients[c := Calling(id, op)])
    case Serve(c, reply, store) =>
      var id, op := w.clients[c].id, w.clients[c].op;
      w.(store := store, clients := w.clients[c := Served(id, op, reply)],
         effects := w.effects + [Effect(id, Call(op, reply), w.now)])
    case Finish(c) =>
      w.(entries := Completed(w.entries, w.clients[c].id, w.clients[c].reply, w.now), clients := w.clients - {c})
    case Wait(time) => w.(now := w.now + time)
  }

  ghost predicate AllowedRun(w: World, events: seq<Event>)
    decreases |events|
  {
    events == [] || (Allowed(w, events[0]) && AllowedRun(Next(w, events[0]), events[1..]))
  }

  ghost function After(w: World, events: seq<Event>): World
    requires AllowedRun(w, events)
    decreases |events|
  {
    if events == [] then w else After(Next(w, events[0]), events[1..])
  }

  function Start(store: Store): World {
    World([], 0, None, map[], store, 0, [])
  }

  // ---------------------------------------------------------------- the record is exact

  function Calls(effects: seq<Effect>): seq<Call> {
    seq(|effects|, i requires 0 <= i < |effects| => effects[i].call)
  }

  ghost predicate LegalTo(s: Store, calls: seq<Call>, t: Store)
    decreases |calls|
  {
    if calls == [] then s == t
    else var last := calls[|calls| - 1];
         exists u :: LegalTo(s, calls[..|calls| - 1], u) && Legal(u, last.op, last.reply, t)
  }

  lemma OneCallMore(s: Store, calls: seq<Call>, t: Store, call: Call, u: Store)
    requires LegalTo(s, calls, t) && Legal(t, call.op, call.reply, u)
    ensures LegalTo(s, calls + [call], u)
  {
    var more := calls + [call];
    assert more[..|more| - 1] == calls && more[|more| - 1] == call;
    assert LegalTo(s, more[..|more| - 1], t) && Legal(t, more[|more| - 1].op, more[|more| - 1].reply, u);
  }

  /** Where client `c` stands agrees with the entries. */
  ghost predicate ClientAgrees(w: World, c: nat)
    requires c in w.clients
  {
    var client := w.clients[c];
    && !client.op.DeleteVm?
    && (client.Beginning? <==> w.idLock == Some(c))
    && (client.Beginning? ==> client.id == |w.entries|)
    && (!client.Beginning? ==>
          && client.id < |w.entries|
          && var e := w.entries[client.id];
          e == Entry(client.id, client.op, e.startTime, None, None, c))
  }

  ghost predicate EntriesAgree(w: World) {
    && w.nextId == |w.entries| + (if w.idLock.Some? then 1 else 0)
    && (w.idLock.Some? ==> w.idLock.value in w.clients)
    && (forall c :: c in w.clients ==> ClientAgrees(w, c))
    && (forall i :: 0 <= i < |w.entries| ==> w.entries[i].id == i && !w.entries[i].operation.DeleteVm?)
    && (forall i :: 0 <= i < |w.entries| && w.entries[i].reply.None? ==>
          w.entries[i].client in w.clients && w.clients[w.entries[i].client].id == i
          && !w.clients[w.entries[i].client].Beginning?)
  }

  /** The call with this id has been answered, in the record or on its way to it. */
  predicate Answered(w: World, id: nat, reply: Reply)
    requires id < |w.entries|
  {
    var e := w.entries[id];
    e.reply == Some(reply)
    || (e.reply.None? && e.client in w.clients && w.clients[e.client] == Served(id, e.operation, reply))
  }

  ghost predicate EffectsAgree(w: World) {
    && (forall i, j :: 0 <= i < j < |w.effects| ==> w.effects[i].id != w.effects[j].id)
    && (forall f :: f in w.effects ==> f.id < |w.entries| && w.entries[f.id].operation == f.call.op && Answered(w, f.id, f.call.reply))
    && (forall id: nat, reply :: id < |w.entries| && Answered(w, id, reply) ==>
          exists at :: Effect(id, Call(w.entries[id].operation, reply), at) in w.effects)
  }

  /** Calls take effect between their beginning and their end, in the order of the store's effects, and entries stand in the
      order in which their calls began. */
  ghost predicate TimesAgree(w: World) {
    EntriesTimed(w.entries, w.now) && ClientsTimed(w.clients, w.entries, w.now) && EffectsTimed(w.effects, w.entries, w.now)
  }

  ghost predicate EntriesTimed(entries: seq<Entry>, now: nat) {
    && (forall i :: 0 <= i < |entries| ==> EntryTimes(entries[i], now))
    && (forall i, j :: 0 <= i < j < |entries| ==> entries[i].startTime <= entries[j].startTime)
  }

  ghost predicate ClientsTimed(clients: map<nat, Client>, entries: seq<Entry>, now: nat) {
    forall c :: c in clients && clients[c].Beginning? ==>
      clients[c].start <= now && forall i :: 0 <= i < |entries| ==> entries[i].startTime <= clients[c].start
  }

  ghost predicate EffectsTimed(effects: seq<Effect>, entries: seq<Entry>, now: nat) {
    && (forall f :: f in effects ==> f.id < |entries| && EffectTimes(entries[f.id], f, now))
    && (forall i, j :: 0 <= i < j < |effects| ==> effects[i].at <= effects[j].at)
  }

  predicate EntryTimes(e: Entry, now: nat) {
    && e.startTime <= now && (e.endTime.Some? <==> e.reply.Some?)
    && (e.endTime.Some? ==> e.startTime <= e.endTime.value <= now)
  }

  predicate EffectTimes(e: Entry, f: Effect, now: nat) {
    e.startTime <= f.at <= now && (e.endTime.Some? ==> f.at <= e.endTime.value)
  }

  ghost predicate Inv(w: World, start: Store) {
    EntriesAgree(w) && EffectsAgree(w) && TimesAgree(w) && LegalTo(start, Calls(w.effects), w.store)
  }

  lemma FinishIs(w: World, c: nat)
    requires EntriesAgree(w) && c in w.clients && w.clients[c].Served?
    ensures ClientAgrees(w, c)
    ensures var client := w.clients[c];
            Next(w, Finish(c)).entries == w.entries[client.id := Ended(w.entries[client.id], client.reply, w.now)]
  {
    assert ClientAgrees(w, c);
    CompletesFirst(w.entries, w.clients[c].id, w.clients[c].reply, w.now, w.clients[c].id);
  }

  lemma NextKeepsEntries(w: World, ev: Event)
    requires EntriesAgree(w) && Allowed(w, ev)
    ensures EntriesAgree(Next(w, ev))
  {
    var x := Next(w, ev);
    if ev.Finish? {
      FinishIs(w, ev.c);
    }
    forall d | d in x.clients
      ensures ClientAgrees(x, d)
    {
      assert d in w.clients ==> ClientAgrees(w, d);
      assert !ev.Wait? && ev.c in w.clients ==> ClientAgrees(w, ev.c);
    }
  }

  lemma PushKeepsTimes(w: World, c: nat)
    requires EntriesAgree(w) && EffectsAgree(w) && TimesAgree(w) && c in w.clients && w.clients[c].Beginning?
    ensures TimesAgree(Next(w, Push(c)))
  {
    assert ClientAgrees(w, c);
    var x := Next(w, Push(c));
    assert forall d :: d in x.clients && x.clients[d].Beginning? ==> d in w.clients && ClientAgrees(w, d);
  }

  lemma EffectKeepsTimes(effects: seq<Effect>, entries: seq<Entry>, now: nat, f: Effect)
    requires EffectsTimed(effects, entries, now) && f.id < |entries| && EffectTimes(entries[f.id], f, now) && f.at == now
    ensures EffectsTimed(effects + [f], entries, now)
  {
    forall i | 0 <= i < |effects|
      ensures effects[i].at <= now
    {
      assert effects[i] in effects;
    }
  }

  lemma ServeKeepsTimes(w: World, ev: Event)
    requires EntriesAgree(w) && TimesAgree(w) && Allowed(w, ev) && ev.Serve?
    ensures TimesAgree(Next(w, ev))
  {
    assert ClientAgrees(w, ev.c);
    var client := w.clients[ev.c];
    EffectKeepsTimes(w.effects, w.entries, w.now, Effect(client.id, Call(client.op, ev.reply), w.now));
  }

  lemma EndKeepsTimes(entries: seq<Entry>, effects: seq<Effect>, now: nat, i: nat, reply: Reply)
    requires EntriesTimed(entries, now) && EffectsTimed(effects, entries, now) && i < |entries|
    ensures var ended := entries[i := Ended(entries[i], reply, now)]; EntriesTimed(ended, now) && EffectsTimed(effects, ended, now)
  {
  }

  lemma FinishKeepsTimes(w: World, c: nat)
    requires EntriesAgree(w) && TimesAgree(w) && c in w.clients && w.clients[c].Served?
    ensures TimesAgree(Next(w, Finish(c)))
  {
    FinishIs(w, c);
    EndKeepsTimes(w.entries, w.effects, w.now, w.clients[c].id, w.clients[c].reply);
  }

  lemma NextKeepsTimes(w: World, ev: Event)
    requires EntriesAgree(w) && EffectsAgree(w) && TimesAgree(w) && Allowed(w, ev)
    ensures TimesAgree(Next(w, ev))
  {
    match ev
    case Wait(_) =>
    case TakeId(_, _) =>
    case Push(c) => PushKeepsTimes(w, c);
    case Serve(_, _, _) => ServeKeepsTimes(w, ev);
    case Finish(c) => FinishKeepsTimes(w, c);
  }

  /** The same effects, and no call answered that was not before. */
  lemma SameEffects(w: World, x: World)
    requires EffectsAgree(w) && x.effects == w.effects && |x.entries| >= |w.entries|
    requires forall i :: 0 <= i < |w.entries| ==> x.entries[i].operation == w.entries[i].operation
    requires forall id: nat, reply :: id < |w.entries| ==> (Answered(x, id, reply) <==> Answered(w, id, reply))
    requires forall id: nat, reply :: |w.entries| <= id < |x.entries| ==> !Answered(x, id, reply)
    ensures EffectsAgree(x)
  {
  }

  lemma ServeKeepsEffects(w: World, ev: Event)
    requires EntriesAgree(w) && EffectsAgree(w) && Allowed(w, ev) && ev.Serve?
    ensures EffectsAgree(Next(w, ev))
  {
    var x, id := Next(w, ev), w.clients[ev.c].id;
    assert ClientAgrees(w, ev.c);
    assert x.effects[|w.effects|] in x.effects;
    assert forall other: nat, r :: other < |x.entries| && other != id ==> (Answered(x, other, r) <==> Answered(w, other, r));
    assert forall r :: !Answered(w, id, r) && (Answered(x, id, r) <==> r == ev.reply);
  }

  lemma FinishKeepsEffects(w: World, c: nat)
    requires EntriesAgree(w) && EffectsAgree(w) && c in w.clients && w.clients[c].Served?
    ensures EffectsAgree(Next(w, Finish(c)))
  {
    FinishIs(w, c);
    SameEffects(w, Next(w, Finish(c)));
  }

  lemma NextKeepsEffects(w: World, ev: Event)
    requires EntriesAgree(w) && EffectsAgree(w) && Allowed(w, ev)
    ensures EffectsAgree(Next(w, ev))
  {
    match ev
    case Wait(_) => SameEffects(w, Next(w, ev));
    case TakeId(_, _) => SameEffects(w, Next(w, ev));
    case Push(c) =>
      assert ClientAgrees(w, c);
      SameEffects(w, Next(w, ev));
    case Finish(c) => FinishKeepsEffects(w, c);
    case Serve(_, _, _) => ServeKeepsEffects(w, ev);
  }

  lemma NextKeepsInv(w: World, ev: Event, start: Store)
    requires Inv(w, start) && Allowed(w, ev)
    ensures Inv(Next(w, ev), start)
  {
    NextKeepsEntries(w, ev);
    NextKeepsEffects(w, ev);
    NextKeepsTimes(w, ev);
    NextStaysLegal(w, ev, start);
  }

  lemma NextStaysLegal(w: World, ev: Event, start: Store)
    requires LegalTo(start, Calls(w.effects), w.store) && Allowed(w, ev)
    ensures LegalTo(start, Calls(Next(w, ev).effects), Next(w, ev).store)
  {
    if ev.Serve? {
      var call := Call(w.clients[ev.c].op, ev.reply);
      OneCallMore(start, Calls(w.effects), w.store, call, ev.store);
      assert Calls(Next(w, ev).effects) == Calls(w.effects) + [call];
    }
  }

  lemma {:induction false} RunKeepsInv(w: World, events: seq<Event>, start: Store)
    requires Inv(w, start) && AllowedRun(w, events)
    ensures Inv(After(w, events), start)
    decreases |events|
  {
    if events != [] {
      NextKeepsInv(w, events[0], start);
      RunKeepsInv(Next(w, events[0]), events[1..], start);
    }
  }

  /** The recorded reply of a finished call is the store's. */
  ghost predicate RepliesAreTrue(w: World) {
    forall i: nat :: i < |w.entries| && w.entries[i].reply.Some? ==>
      exists at :: Effect(i, Call(w.entries[i].operation, w.entries[i].reply.value), at) in w.effects
  }

  /** Completing a served call changes the entry of that call and no other. */
  ghost predicate CompletesOwn(w: World, c: nat)
    requires c in w.clients && w.clients[c].Served?
  {
    var client := w.clients[c];
    && client.id < |w.entries| && w.entries[client.id].client == c
    && Completed(w.entries, client.id, client.reply, w.now)
       == w.entries[client.id := Ended(w.entries[client.id], client.reply, w.now)]
  }

  lemma TrueReplies(w: World)
    requires EffectsAgree(w)
    ensures RepliesAreTrue(w)
  {
    forall i: nat | i < |w.entries| && w.entries[i].reply.Some?
      ensures exists at :: Effect(i, Call(w.entries[i].operation, w.entries[i].reply.value), at) in w.effects
    {
      assert Answered(w, i, w.entries[i].reply.value);
    }
  }

  lemma TimesAreWell(w: World)
    requires TimesAgree(w)
    ensures WellTimed(w.entries)
  {
  }

  lemma OwnEntry(w: World, c: nat)
    requires EntriesAgree(w) && c in w.clients && w.clients[c].Served?
    ensures CompletesOwn(w, c)
  {
    FinishIs(w, c);
  }

  /** In every run, ids are positions, `complete` finds the caller's own entry and changes nothing else, the record gives
      every finished call the answer the store gave it, and entries stand in the order in which their calls began. */
  lemma RecordIsExact(start: Store, events: seq<Event>)
    requires AllowedRun(Start(start), events)
    ensures var w := After(Start(start), events);
            && (forall i :: 0 <= i < |w.entries| ==> w.entries[i].id == i)
            && WellTimed(w.entries) && RepliesAreTrue(w)
            && (forall c :: c in w.clients && w.clients[c].Served? ==> CompletesOwn(w, c))
  {
    RunKeepsInv(Start(start), events, start);
    var w := After(Start(start), events);
    TrueReplies(w);
    TimesAreWell(w);
    forall c | c in w.clients && w.clients[c].Served?
      ensures CompletesOwn(w, c)
    {
      OwnEntry(w, c);
    }
  }

  // ---------------------------------------------------------------- the check never cries wolf

  lemma {:induction false} LegalAppends(s: Store, calls: seq<Call>, rest: seq<Call>, t: Store)
    requires LegalTo(s, calls, t) && LegalRun(t, rest)
    ensures LegalRun(s, calls + rest)
    decreases |calls|
  {
    if calls == [] {
      assert calls + rest == rest;
    } else {
      var front, last := calls[..|calls| - 1], calls[|calls| - 1];
      var u :| LegalTo(s, front, u) && Legal(u, last.op, last.reply, t);
      assert ([last] + rest)[1..] == rest;
      LegalAppends(s, front, [last] + rest, u);
      assert front + ([last] + rest) == calls + rest;
    }
  }

  lemma {:induction false} FinishedFrom(entries: seq<Entry>, j: nat) returns (i: nat)
    requires j < |Finished(entries)|
    ensures i < |entries| && entries[i] == Finished(entries)[j] && entries[i].reply.Some?
  {
    var front := entries[..|entries| - 1];
    if j < |Finished(front)| {
      i := FinishedFrom(front, j);
    } else {
      i := |entries| - 1;
    }
  }

  lemma {:induction false} FinishedKeepsOrder(entries: seq<Entry>)
    requires forall i :: 0 <= i < |entries| ==> entries[i].id == i
    ensures forall j, k :: 0 <= j < k < |Finished(entries)| ==> Finished(entries)[j].id < Finished(entries)[k].id
  {
    if entries != [] {
      var front := entries[..|entries| - 1];
      FinishedKeepsOrder(front);
      forall j | 0 <= j < |Finished(front)|
        ensures Finished(front)[j].id < |entries| - 1
      {
        var i := FinishedFrom(front, j);
      }
    }
  }

  /** The store carried out what the record claims, at a place of its own. */
  lemma EffectOf(w: World, e: Entry, name: string) returns (i: nat)
    requires EntriesAgree(w) && EffectsAgree(w) && e in w.entries && Creates(e, name)
    ensures i < |w.effects| && w.effects[i].id == e.id && w.effects[i].call == Call(CreateVm(name), Success)
  {
    assert Answered(w, e.id, Success);
    var at :| Effect(e.id, Call(CreateVm(name), Success), at) in w.effects;
    i :| 0 <= i < |w.effects| && w.effects[i] == Effect(e.id, Call(CreateVm(name), Success), at);
  }

  /** Whatever the interleaving, and with any calls still open, the check accepts what was recorded against an atomic
      store. */
  lemma NoFalseAlarm(start: Store, events: seq<Event>)
    requires AllowedRun(Start(start), events)
    ensures CreatedOnce(Finished(After(Start(start), events).entries))
  {
    RunKeepsInv(Start(start), events, start);
    var w := After(Start(start), events);
    CheckAccepts(w, start);
  }

  lemma CheckAccepts(w: World, start: Store)
    requires EntriesAgree(w) && EffectsAgree(w) && LegalTo(start, Calls(w.effects), w.store)
    ensures CreatedOnce(Finished(w.entries))
  {
    LegalAppends(start, Calls(w.effects), [], w.store);
    assert Calls(w.effects) + [] == Calls(w.effects);
    FinishedKeepsOrder(w.entries);
    forall name, j: nat, k: nat | j < k < |Finished(w.entries)| && Creates(Finished(w.entries)[j], name)
      ensures !Creates(Finished(w.entries)[k], name)
    {
      OneCreator(w, start, name, j, k);
    }
  }

  lemma OneCreator(w: World, start: Store, name: string, j: nat, k: nat)
    requires EntriesAgree(w) && EffectsAgree(w) && LegalRun(start, Calls(w.effects))
    requires j < k < |Finished(w.entries)| && Finished(w.entries)[j].id < Finished(w.entries)[k].id
    ensures !(Creates(Finished(w.entries)[j], name) && Creates(Finished(w.entries)[k], name))
  {
    var finished := Finished(w.entries);
    if Creates(finished[j], name) && Creates(finished[k], name) {
      var p := FinishedFrom(w.entries, j);
      var q := FinishedFrom(w.entries, k);
      var a := EffectOf(w, w.entries[p], name);
      var b := EffectOf(w, w.entries[q], name);
      TwoEffects(w, start, name, a, b);
      assert false;
    }
  }

  lemma TwoEffects(w: World, start: Store, name: string, a: nat, b: nat)
    requires EntriesAgree(w) && EffectsAgree(w) && LegalRun(start, Calls(w.effects)) && a < |w.effects| && b < |w.effects|
    requires w.effects[a].call == Call(CreateVm(name), Success) == w.effects[b].call
    ensures a == b
  {
    var calls := Calls(w.effects);
    NothingDeleted(w);
    AtMostOneCreation(start, calls, name);
    if a < b {
      TwiceIsTwo(calls, Call(CreateVm(name), Success), a, b);
    } else if b < a {
      TwiceIsTwo(calls, Call(CreateVm(name), Success), b, a);
    }
  }

  lemma NothingDeleted(w: World)
    requires EntriesAgree(w) && EffectsAgree(w)
    ensures forall c :: c in Calls(w.effects) ==> !c.op.DeleteVm?
  {
    forall c | c in Calls(w.effects)
      ensures !c.op.DeleteVm?
    {
      var i :| 0 <= i < |w.effects| && Calls(w.effects)[i] == c;
      assert w.effects[i] in w.effects;
    }
  }

  // ---------------------------------------------------------------- a quiet history is linearizable

  /** The entries in the order in which the store carried out their calls. */
  function StoreOrder(w: World): seq<Entry>
    requires forall f :: f in w.effects ==> f.id < |w.entries|
  {
    seq(|w.effects|, i requires 0 <= i < |w.effects| =>
      assert w.effects[i] in w.effects;
      w.entries[w.effects[i].id])
  }

  lemma {:induction false} DistinctOnce(p: seq<Entry>, x: Entry)
    requires forall i, j :: 0 <= i < j < |p| ==> p[i].id != p[j].id
    ensures multiset(p)[x] == if x in p then 1 else 0
  {
    if p != [] {
      var front, last := p[..|p| - 1], p[|p| - 1];
      assert p == front + [last];
      DistinctOnce(front, x);
    }
  }

  lemma StoreOrderHas(w: World, x: Entry)
    requires EntriesAgree(w) && EffectsAgree(w) && forall e :: e in w.entries ==> e.reply.Some?
    ensures x in w.entries <==> x in StoreOrder(w)
  {
    var order := StoreOrder(w);
    if x in w.entries {
      var i :| 0 <= i < |w.entries| && w.entries[i] == x;
      assert Answered(w, i, x.reply.value);
      var at :| Effect(i, Call(x.operation, x.reply.value), at) in w.effects;
      var k :| 0 <= k < |w.effects| && w.effects[k] == Effect(i, Call(x.operation, x.reply.value), at);
      assert order[k] == x;
    }
    if x in order {
      var k :| 0 <= k < |order| && order[k] == x;
      assert w.effects[k] in w.effects;
    }
  }

  lemma StoreOrderPermutes(w: World)
    requires EntriesAgree(w) && EffectsAgree(w) && forall e :: e in w.entries ==> e.reply.Some?
    ensures multiset(StoreOrder(w)) == multiset(w.entries)
  {
    var order := StoreOrder(w);
    assert forall k :: 0 <= k < |order| ==> w.effects[k] in w.effects && order[k].id == w.effects[k].id;
    forall x: Entry
      ensures multiset(order)[x] == multiset(w.entries)[x]
    {
      DistinctOnce(order, x);
      DistinctOnce(w.entries, x);
      StoreOrderHas(w, x);
    }
  }

  /** An effect lies between its call's beginning and end, so the store's order keeps what real time kept apart. */
  lemma StoreOrderKeepsTime(w: World, i: nat, j: nat)
    requires EffectsAgree(w) && TimesAgree(w) && i < j < |w.effects|
    ensures !Precedes(StoreOrder(w)[j], StoreOrder(w)[i])
  {
    assert w.effects[i] in w.effects && w.effects[j] in w.effects;
    assert w.effects[i].at <= w.effects[j].at;
  }

  lemma AllAnswered(w: World)
    requires EntriesAgree(w) && w.clients == map[]
    ensures forall e :: e in w.entries ==> e.reply.Some?
  {
  }

  lemma {:induction false} AllFinished(entries: seq<Entry>)
    requires forall e :: e in entries ==> e.reply.Some?
    ensures Finished(entries) == entries
  {
    if entries != [] {
      AllFinished(entries[..|entries| - 1]);
      assert entries == entries[..|entries| - 1] + [entries[|entries| - 1]];
    }
  }

  lemma StoreOrderIsLinearization(w: World, start: Store)
    requires Inv(w, start) && forall e :: e in w.entries ==> e.reply.Some?
    ensures IsLinearization(StoreOrder(w), start)
  {
    var order := StoreOrder(w);
    forall k | 0 <= k < |order|
      ensures order[k].reply.Some? && Call(order[k].operation, order[k].reply.value) == w.effects[k].call
    {
      assert w.effects[k] in w.effects;
    }
    assert CallsOf(order) == Calls(w.effects);
    LegalAppends(start, Calls(w.effects), [], w.store);
    assert Calls(w.effects) + [] == Calls(w.effects);
    forall i, j | 0 <= i < j < |order|
      ensures !Precedes(order[j], order[i])
    {
      StoreOrderKeepsTime(w, i, j);
    }
  }

  /** Once no call is open, the recorded history of any run is linearizable: the store's own order is legal and keeps apart
      what real time kept apart. */
  lemma QuietHistoryIsLinearizable(start: Store, events: seq<Event>)
    requires AllowedRun(Start(start), events) && After(Start(start), events).clients == map[]
    ensures var entries := After(Start(start), events).entries;
            Finished(entries) == entries && Linearizable(entries, start)
  {
    RunKeepsInv(Start(start), events, start);
    var w := After(Start(start), events);
    AllAnswered(w);
    AllFinished(w.entries);
    StoreOrderPermutes(w);
    StoreOrderIsLinearization(w, start);
  }
}
