/** The recorded operation history and its consistency check (`linearizability.rs`). */
module Linearizability {
  import opened Outcomes

  datatype Operation =
    | CreateVm(name: string)
    | StartVm(name: string)
    | StopVm(name: string)
    | DeleteVm(name: string)
    | ListVms
    | GetVmStatus(name: string)

  datatype Reply =
    | Success
    | Failure
    | VmList(vms: seq<string>)
    | VmStatus(present: bool, running: bool)

  datatype Entry = Entry(
    id: nat, operation: Operation, startTime: nat, endTime: Option<nat>, reply: Option<Reply>, client: nat)

  function Ended(e: Entry, reply: Reply, now: nat): Entry {
    e.(endTime := Some(now), reply := Some(reply))
  }

  /** The entries after the first one with this id, if any, has been completed. */
  function Completed(entries: seq<Entry>, id: nat, reply: Reply, now: nat): seq<Entry> {
    if entries == [] then []
    else if entries[0].id == id then [Ended(entries[0], reply, now)] + entries[1..]
    else [entries[0]] + Completed(entries[1..], id, reply, now)
  }

  /** Only the first entry with the id changes, and only its reply and end. */
  lemma {:induction false} CompletesFirst(entries: seq<Entry>, id: nat, reply: Reply, now: nat, i: nat)
    requires i <= |entries| && (forall k :: 0 <= k < i ==> entries[k].id != id)
    requires i < |entries| ==> entries[i].id == id
    ensures Completed(entries, id, reply, now)
            == if i < |entries| then entries[i := Ended(entries[i], reply, now)] else entries
    decreases i
  {
    if i > 0 {
      var rest := entries[1..];
      CompletesFirst(rest, id, reply, now, i - 1);
    }
  }

  function Finished(entries: seq<Entry>): seq<Entry> {
    if entries == [] then []
    else Finished(entries[..|entries| - 1])
         + (if entries[|entries| - 1].reply.Some? then [entries[|entries| - 1]] else [])
  }

  /** The entry records that a machine of this name was created. */
  predicate Creates(e: Entry, name: string) {
    e.operation == CreateVm(name) && e.reply == Some(Success)
  }

  ghost predicate CreatedOnce(entries: seq<Entry>) {
    forall name, i, j :: 0 <= i < j < |entries| && Creates(entries[i], name) ==> !Creates(entries[j], name)
  }

  class OperationHistory {
    var entries: seq<Entry>
    var nextId: nat

    constructor ()
      ensures entries == [] && nextId == 0
    {
      entries := [];
      nextId := 0;
    }

    /** `begin`, when no other call comes between its two locks. */
    method Begin(operation: Operation, client: nat, now: nat) returns (id: nat)
      modifies this
      ensures id == old(nextId) && nextId == old(nextId) + 1
      ensures entries == old(entries) + [Entry(id, operation, now, None, None, client)]
    {
      id := nextId;
      nextId := nextId + 1;
      entries := entries + [Entry(id, operation, now, None, None, client)];
    }

    method Complete(id: nat, reply: Reply, now: nat)
      modifies this`entries
      ensures entries == Completed(old(entries), id, reply, now)
    {
      var i := 0;
      while i < |entries| && entries[i].id != id
        invariant 0 <= i <= |entries| && entries == old(entries)
        invariant forall k :: 0 <= k < i ==> entries[k].id != id
      {
        i := i + 1;
      }
      CompletesFirst(entries, id, reply, now, i);
      if i < |entries| {
        entries := entries[i := Ended(entries[i], reply, now)];
      }
    }

    method GetCompleted() returns (finished: seq<Entry>)
      ensures finished == Finished(entries)
    {
      finished := [];
      for i := 0 to |entries|
        invariant finished == Finished(entries[..i])
      {
        assert entries[..i + 1][..i] == entries[..i];
        if entries[i].reply.Some? {
          finished := finished + [entries[i]];
        }
      }
      assert entries[..|entries|] == entries;
    }
  }

  /** Refuses a history exactly when two entries record the creation of one name. */
  method CheckVmConsistency(entries: seq<Entry>) returns (r: Result<(), string>)
    ensures r.Ok? <==> CreatedOnce(entries)
    ensures r.Err? ==> exists i, j :: 0 <= i < j < |entries| && Creates(entries[i], r.error) && Creates(entries[j], r.error)
  {
    var created: set<string> := {};
    for i := 0 to |entries|
      invariant CreatedOnce(entries[..i])
      invariant forall name :: name in created <==> exists k :: 0 <= k < i && Creates(entries[k], name)
    {
      var e := entries[i];
      if e.operation.CreateVm? && e.reply == Some(Success) {
        assert Creates(e, e.operation.name);
        if e.operation.name in created {
          return Err(e.operation.name);
        }
        created := created + {e.operation.name};
      }
    }
    assert entries[..|entries|] == entries;
    r := Ok(());
  }

  // ---------------------------------------------------------------- what a store may answer

  /** The machines that exist, and whether each runs. */
  type Store = map<string, bool>

  /** One atomic call may take the store from `s` to `t` and be answered `r`; a failed call may still have worked. */
  predicate Legal(s: Store, op: Operation, r: Reply, t: Store) {
    match op
    case CreateVm(name) => Changes(r, name !in s, s, s[name := false], t)
    case StartVm(name) => Changes(r, name in s, s, s[name := true], t)
    case StopVm(name) => Changes(r, name in s, s, s[name := false], t)
    case DeleteVm(name) => Changes(r, name in s, s, s - {name}, t)
    case ListVms => t == s && (r.Failure? || (r.VmList? && (set v | v in r.vms) == s.Keys))
    case GetVmStatus(name) => t == s && (r.Failure? || r == VmStatus(name in s, name in s && s[name]))
  }

  predicate Changes(r: Reply, possible: bool, s: Store, changed: Store, t: Store) {
    || (r.Success? && possible && t == changed)
    || (r.Failure? && (t == s || (possible && t == changed)))
  }

  datatype Call = Call(op: Operation, reply: Reply)

  /** The calls, one after the other in this order, are legal for a store that starts as `s`. */
  ghost predicate LegalRun(s: Store, calls: seq<Call>)
    decreases |calls|
  {
    calls == [] || exists t :: Legal(s, calls[0].op, calls[0].reply, t) && LegalRun(t, calls[1..])
  }

  function CallsOf(entries: seq<Entry>): seq<Call>
    requires forall e :: e in entries ==> e.reply.Some?
  {
    seq(|entries|, i requires 0 <= i < |entries| => Call(entries[i].operation, entries[i].reply.value))
  }

  /** Some order of the recorded calls is legal. */
  ghost predicate HasLegalOrder(entries: seq<Entry>, s: Store)
    requires forall e :: e in entries ==> e.reply.Some?
  {
    exists order :: multiset(order) == multiset(CallsOf(entries)) && LegalRun(s, order)
  }

  /** The first call had ended before the second began. */
  predicate Precedes(a: Entry, b: Entry) {
    a.endTime.Some? && a.endTime.value < b.startTime
  }

  /** Some order of the recorded calls is legal and keeps apart what real time kept apart. */
  ghost predicate Linearizable(entries: seq<Entry>, s: Store) {
    exists order :: multiset(order) == multiset(entries) && IsLinearization(order, s)
  }

  ghost predicate IsLinearization(order: seq<Entry>, s: Store) {
    && (forall e :: e in order ==> e.reply.Some?)
    && LegalRun(s, CallsOf(order))
    && forall i, j :: 0 <= i < j < |order| ==> !Precedes(order[j], order[i])
  }

  lemma WithoutOne(q: seq<Entry>, k: nat)
    requires k < |q| && forall e :: e in q ==> e.reply.Some?
    ensures var rest := q[..k] + q[k + 1..];
            && (forall e :: e in rest ==> e.reply.Some?)
            && multiset(q) == multiset(rest) + multiset{q[k]}
            && multiset(CallsOf(q)) == multiset(CallsOf(rest)) + multiset{Call(q[k].operation, q[k].reply.value)}
  {
    var rest := q[..k] + q[k + 1..];
    var call := Call(q[k].operation, q[k].reply.value);
    assert q == q[..k] + [q[k]] + q[k + 1..];
    assert CallsOf(q) == CallsOf(q[..k]) + [call] + CallsOf(q[k + 1..]);
    assert CallsOf(rest) == CallsOf(q[..k]) + CallsOf(q[k + 1..]);
  }

  lemma {:induction false} SameCalls(p: seq<Entry>, q: seq<Entry>)
    requires multiset(p) == multiset(q)
    requires (forall e :: e in p ==> e.reply.Some?) && (forall e :: e in q ==> e.reply.Some?)
    ensures multiset(CallsOf(p)) == multiset(CallsOf(q))
    decreases |p|
  {
    if p == [] {
      assert |multiset(q)| == 0;
    } else {
      var x := p[0];
      assert p[0] in multiset(q);
      var k :| 0 <= k < |q| && q[k] == x;
      WithoutOne(p, 0);
      WithoutOne(q, k);
      var front, rest := p[..0] + p[1..], q[..k] + q[k + 1..];
      assert multiset(front) == multiset(p) - multiset{x};
      assert multiset(rest) == multiset(q) - multiset{x};
      SameCalls(front, rest);
    }
  }

  lemma LinearizableHasOrder(entries: seq<Entry>, s: Store)
    requires (forall e :: e in entries ==> e.reply.Some?) && Linearizable(entries, s)
    ensures HasLegalOrder(entries, s)
  {
    var order :| multiset(order) == multiset(entries) && IsLinearization(order, s);
    SameCalls(order, entries);
  }

  function Creations(calls: seq<Call>, name: string): nat {
    multiset(calls)[Call(CreateVm(name), Success)]
  }

  lemma FirstCall(calls: seq<Call>)
    requires calls != []
    ensures multiset(calls) == multiset{calls[0]} + multiset(calls[1..])
  {
    assert calls == [calls[0]] + calls[1..];
  }

  /** Nothing is deleted, so an existing name is never created again. */
  lemma {:induction false} AtMostOneCreation(s: Store, calls: seq<Call>, name: string)
    requires LegalRun(s, calls)
    requires forall c :: c in calls ==> !c.op.DeleteVm?
    ensures Creations(calls, name) <= (if name in s then 0 else 1)
    decreases |calls|
  {
    if calls != [] {
      var t :| Legal(s, calls[0].op, calls[0].reply, t) && LegalRun(t, calls[1..]);
      AtMostOneCreation(t, calls[1..], name);
      FirstCall(calls);
    }
  }

  lemma TwiceIsTwo(calls: seq<Call>, c: Call, i: nat, j: nat)
    requires i < j < |calls| && calls[i] == c && calls[j] == c
    ensures multiset(calls)[c] >= 2
  {
    assert calls == calls[..j] + calls[j..];
    assert calls[..j][i] == c && calls[j..][0] == c;
    assert c in calls[..j] && c in calls[j..];
  }

  /** A history without deletions that is refused has no legal order at all, whatever the store held before. */
  lemma RefusedHasNoOrder(entries: seq<Entry>, s: Store)
    requires forall e :: e in entries ==> e.reply.Some? && !e.operation.DeleteVm?
    requires !CreatedOnce(entries)
    ensures !HasLegalOrder(entries, s)
  {
    var name, i, j :| 0 <= i < j < |entries| && Creates(entries[i], name) && Creates(entries[j], name);
    var calls := CallsOf(entries);
    TwiceIsTwo(calls, Call(CreateVm(name), Success), i, j);
    forall order: seq<Call> | multiset(order) == multiset(calls)
      ensures !LegalRun(s, order)
    {
      if LegalRun(s, order) {
        forall c: Call | c in order
          ensures !c.op.DeleteVm?
        {
          assert c in multiset(calls);
          var k :| 0 <= k < |calls| && calls[k] == c;
          assert entries[k] in entries;
        }
        AtMostOneCreation(s, order, name);
        assert false;
      }
    }
  }

  /** Recorded creations, each of a new name or failed, are legal in the order they stand. */
  lemma {:induction false} CreationsInOrder(s: Store, entries: seq<Entry>)
    requires forall e :: e in entries ==> e.reply.Some? && e.operation.CreateVm? && (e.reply.value.Success? || e.reply.value.Failure?)
    requires CreatedOnce(entries)
    requires forall e, name :: e in entries && Creates(e, name) ==> name !in s
    ensures LegalRun(s, CallsOf(entries))
    decreases |entries|
  {
    if entries != [] {
      var e, rest, name := entries[0], entries[1..], entries[0].operation.name;
      var t := if e.reply.value.Success? then s[name := false] else s;
      assert CallsOf(entries)[1..] == CallsOf(rest);
      assert Creates(e, name) <==> e.reply.value.Success?;
      forall f, other | f in rest && Creates(f, other)
        ensures other !in t
      {
        var k :| 0 <= k < |rest| && rest[k] == f;
        assert entries[k + 1] == f && f in entries;
      }
      assert CreatedOnce(rest) by {
        assert forall i :: 0 <= i < |rest| ==> rest[i] == entries[i + 1];
      }
      CreationsInOrder(t, rest);
      assert Legal(s, CallsOf(entries)[0].op, CallsOf(entries)[0].reply, t);
    }
  }

  /** Entries stand in the order in which their calls began, and no call ends before it begins. */
  ghost predicate WellTimed(entries: seq<Entry>) {
    && (forall i, j :: 0 <= i < j < |entries| ==> entries[i].startTime <= entries[j].startTime)
    && (forall e :: e in entries && e.endTime.Some? ==> e.startTime <= e.endTime.value)
  }

  lemma StandingOrderKeepsTime(entries: seq<Entry>)
    requires WellTimed(entries)
    ensures forall i, j :: 0 <= i < j < |entries| ==> !Precedes(entries[j], entries[i])
  {
    forall i, j | 0 <= i < j < |entries|
      ensures !Precedes(entries[j], entries[i])
    {
      assert entries[j] in entries;
    }
  }

  /** On histories of creations alone the check is exact: accepted means some order is legal from the empty store, and then
      the history is linearizable. */
  lemma CreationsExactlyChecked(entries: seq<Entry>)
    requires forall e :: e in entries ==> e.reply.Some? && e.operation.CreateVm? && (e.reply.value.Success? || e.reply.value.Failure?)
    ensures CreatedOnce(entries) <==> HasLegalOrder(entries, map[])
    ensures WellTimed(entries) ==> (CreatedOnce(entries) <==> Linearizable(entries, map[]))
  {
    if CreatedOnce(entries) {
      CreationsInOrder(map[], entries);
      if WellTimed(entries) {
        StandingOrderKeepsTime(entries);
        assert IsLinearization(entries, map[]);
      }
    } else {
      RefusedHasNoOrder(entries, map[]);
      if Linearizable(entries, map[]) {
        LinearizableHasOrder(entries, map[]);
      }
    }
  }

  /** With deletions recorded it refuses good histories: a name created, deleted and created again. */
  lemma DeletionsMislead(name: string)
    ensures var entries := [Entry(0, CreateVm(name), 0, Some(1), Some(Success), 0), Entry(1, DeleteVm(name), 2, Some(3), Some(Success), 0),
                            Entry(2, CreateVm(name), 4, Some(5), Some(Success), 0)];
            !CreatedOnce(entries) && HasLegalOrder(entries, map[])
  {
    var entries := [Entry(0, CreateVm(name), 0, Some(1), Some(Success), 0), Entry(1, DeleteVm(name), 2, Some(3), Some(Success), 0),
                    Entry(2, CreateVm(name), 4, Some(5), Some(Success), 0)];
    assert Creates(entries[0], name) && Creates(entries[2], name);
    var calls := CallsOf(entries);
    var s0: Store, s1: Store := map[], map[name := false];
    assert s0[name := false] == s1 && s1 - {name} == s0;
    assert calls[1..][1..][1..] == [];
    assert Legal(s0, calls[1..][1..][0].op, calls[1..][1..][0].reply, s1) && LegalRun(s1, calls[1..][1..][1..]);
    assert LegalRun(s0, calls[1..][1..]);
    assert Legal(s1, calls[1..][0].op, calls[1..][0].reply, s0);
    assert LegalRun(s1, calls[1..]);
    assert Legal(s0, calls[0].op, calls[0].reply, s1);
    assert LegalRun(s0, calls);
  }

  /** Beyond creations it accepts bad histories: a machine started that nobody created. */
  lemma StartsAreUnchecked(name: string)
    ensures var entries := [Entry(0, StartVm(name), 0, Some(1), Some(Success), 0)];
            CreatedOnce(entries) && !HasLegalOrder(entries, map[])
  {
    var entries := [Entry(0, StartVm(name), 0, Some(1), Some(Success), 0)];
    var calls := CallsOf(entries);
    assert calls == [Call(StartVm(name), Success)];
    forall order: seq<Call> | multiset(order) == multiset(calls)
      ensures !LegalRun(map[], order)
    {
      assert |order| == |multiset(order)| == 1;
      assert order[0] in multiset(calls);
    }
  }

  // ---------------------------------------------------------------- reads see writes

  lemma TwoCalls(s: Store, a: Call, b: Call)
    requires LegalRun(s, [a, b])
    ensures exists t, u :: Legal(s, a.op, a.reply, t) && Legal(t, b.op, b.reply, u)
  {
    assert [a, b][1..] == [b];
    var t :| Legal(s, a.op, a.reply, t) && LegalRun(t, [b]);
    var u :| Legal(t, b.op, b.reply, u);
  }

  /** In a legal order an answered read gives what the successful call before it left: a created machine is there and not
      running, a started one runs, a stopped one does not, a deleted one is gone, and the list has exactly those that are
      there. */
  lemma ReadsSeeWrites(s: Store, name: string, write: Operation, read: Operation, r: Reply)
    requires write in {CreateVm(name), StartVm(name), StopVm(name), DeleteVm(name)} && read in {GetVmStatus(name), ListVms}
    requires LegalRun(s, [Call(write, Success), Call(read, r)]) && !r.Failure?
    ensures read == GetVmStatus(name) ==> r == VmStatus(!write.DeleteVm?, write.StartVm?)
    ensures read == ListVms ==>
              r.VmList? && forall other :: other in r.vms <==> if other == name then !write.DeleteVm? else other in s
  {
    TwoCalls(s, Call(write, Success), Call(read, r));
    var t, u :| Legal(s, write, Success, t) && Legal(t, read, r, u);
    if read == ListVms {
      var listed := set v | v in r.vms;
      assert listed == t.Keys;
      forall other: string
        ensures other in r.vms <==> if other == name then !write.DeleteVm? else other in s
      {
        assert other in r.vms <==> other in listed;
        assert other in listed <==> other in t;
      }
    }
  }
}
