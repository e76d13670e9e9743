/** Histories of creations, deletions, starts and stops: exactly which of them have a legal order, by counting each name's
    calls. */
module Lifecycles {
  import opened Outcomes
  import opened Linearizability

  predicate Lifecycle(c: Call) {
    (c.op.CreateVm? || c.op.DeleteVm? || c.op.StartVm? || c.op.StopVm?) && (c.reply.Success? || c.reply.Failure?)
  }

  ghost predicate Lifecycles(calls: multiset<Call>) {
    forall c :: c in calls ==> Lifecycle(c)
  }

  /** A name's calls: creations and deletions that succeeded, those that failed and may yet have worked, and starts and stops
      that succeeded. */
  datatype Tally = Tally(created: nat, maybeCreated: nat, deleted: nat, maybeDeleted: nat, started: nat, stopped: nat)

  function TallyOf(calls: multiset<Call>, name: string): Tally {
    Tally(calls[Call(CreateVm(name), Success)], calls[Call(CreateVm(name), Failure)],
          calls[Call(DeleteVm(name), Success)], calls[Call(DeleteVm(name), Failure)],
          calls[Call(StartVm(name), Success)], calls[Call(StopVm(name), Success)])
  }

  /** Creations and deletions of a name can alternate, beginning with the one its presence asks for, and it is present at some
      time if it was ever started or stopped. */
  predicate Alternates(present: bool, t: Tally) {
    if present then t.deleted <= t.created + t.maybeCreated + 1 && t.created <= t.deleted + t.maybeDeleted
    else
      && t.created <= t.deleted + t.maybeDeleted + 1 && t.deleted <= t.created + t.maybeCreated
      && (t.started + t.stopped > 0 ==> t.created + t.maybeCreated > 0)
  }

  ghost predicate Balanced(s: Store, calls: multiset<Call>) {
    forall name: string :: Alternates(name in s, TallyOf(calls, name))
  }

  // ---------------------------------------------------------------- a legal order is balanced

  lemma BalancedBefore(s: Store, call: Call, t: Store, rest: multiset<Call>, name: string)
    requires Lifecycle(call) && Legal(s, call.op, call.reply, t) && Alternates(name in t, TallyOf(rest, name))
    ensures Alternates(name in s, TallyOf(rest + multiset{call}, name))
  {
    if call.op.name != name {
      assert TallyOf(rest + multiset{call}, name) == TallyOf(rest, name);
    }
  }

  lemma {:induction false} LegalIsBalanced(s: Store, calls: seq<Call>)
    requires LegalRun(s, calls) && Lifecycles(multiset(calls))
    ensures Balanced(s, multiset(calls))
    decreases |calls|
  {
    if calls != [] {
      var t :| Legal(s, calls[0].op, calls[0].reply, t) && LegalRun(t, calls[1..]);
      FirstCall(calls);
      var rest := multiset(calls[1..]);
      assert forall c :: c in rest ==> c in multiset(calls);
      assert calls[0] in multiset(calls);
      LegalIsBalanced(t, calls[1..]);
      forall name: string
        ensures Alternates(name in s, TallyOf(multiset(calls), name))
      {
        BalancedBefore(s, calls[0], t, rest, name);
        assert multiset(calls) == rest + multiset{calls[0]};
      }
    }
  }

  // ---------------------------------------------------------------- balanced calls have a legal order

  lemma StaysBalanced(s: Store, calls: multiset<Call>, call: Call, t: Store)
    requires Balanced(s, calls) && Lifecycle(call) && call in calls
    requires forall other :: other != call.op.name ==> (other in t <==> other in s)
    requires Alternates(call.op.name in t, TallyOf(calls - multiset{call}, call.op.name))
    ensures Balanced(t, calls - multiset{call})
  {
    forall name: string
      ensures Alternates(name in t, TallyOf(calls - multiset{call}, name))
    {
      if name != call.op.name {
        OtherTally(calls, call, name);
        assert Alternates(name in s, TallyOf(calls, name));
      }
    }
  }

  lemma OtherTally(calls: multiset<Call>, call: Call, name: string)
    requires Lifecycle(call) && call.op.name != name
    ensures TallyOf(calls - multiset{call}, name) == TallyOf(calls, name)
  {
  }

  /** The call to make first, among those of one name that count, and whether it works. */
  function Choice(present: bool, t: Tally, name: string): (Call, bool) {
    if present then
      if t.started > 0 then (Call(StartVm(name), Success), true)
      else if t.stopped > 0 then (Call(StopVm(name), Success), true)
      else if t.deleted > 0 then (Call(DeleteVm(name), Success), true)
      else if t.created > 0 then (Call(DeleteVm(name), Failure), true)
      else if t.maybeCreated > 0 then (Call(CreateVm(name), Failure), false)
      else (Call(DeleteVm(name), Failure), false)
    else
      if t.created > 0 then (Call(CreateVm(name), Success), true)
      else if t.deleted > 0 || t.started + t.stopped > 0 then (Call(CreateVm(name), Failure), true)
      else if t.maybeCreated > 0 then (Call(CreateVm(name), Failure), false)
      else (Call(DeleteVm(name), Failure), false)
  }

  /** Whether the name is present after the call. */
  predicate PresentAfter(present: bool, call: Call, works: bool) {
    if works && call.op.CreateVm? then true else if works && call.op.DeleteVm? then false else present
  }

  lemma ChoiceKeeps(present: bool, calls: multiset<Call>, name: string)
    requires Alternates(present, TallyOf(calls, name)) && TallyOf(calls, name) != Tally(0, 0, 0, 0, 0, 0)
    ensures var (call, works) := Choice(present, TallyOf(calls, name), name);
            && call in calls && Lifecycle(call) && call.op.name == name
            && (works ==> call.op.CreateVm? == !present)
            && Alternates(PresentAfter(present, call, works), TallyOf(calls - multiset{call}, name))
  {
  }

  function Effect(s: Store, call: Call, works: bool, name: string): Store {
    if !works then s
    else match call.op
      case CreateVm(_) => s[name := false]
      case DeleteVm(_) => s - {name}
      case StartVm(_) => s[name := true]
      case StopVm(_) => s[name := false]
      case _ => s
  }

  /** Some call can be made now that leaves the others balanced. */
  lemma OneCallNow(s: Store, calls: multiset<Call>, name: string) returns (call: Call, t: Store)
    requires Balanced(s, calls) && TallyOf(calls, name) != Tally(0, 0, 0, 0, 0, 0)
    ensures call in calls && Legal(s, call.op, call.reply, t) && Balanced(t, calls - multiset{call})
  {
    assert Alternates(name in s, TallyOf(calls, name));
    ChoiceKeeps(name in s, calls, name);
    var (chosen, works) := Choice(name in s, TallyOf(calls, name), name);
    call := chosen;
    t := Effect(s, call, works, name);
    StaysBalanced(s, calls, call, t);
  }

  /** A start or stop that failed can be made at any time, without effect. */
  lemma FailedNow(s: Store, calls: multiset<Call>, call: Call)
    requires Balanced(s, calls) && call in calls && Lifecycle(call)
    requires TallyOf(calls, call.op.name) == Tally(0, 0, 0, 0, 0, 0)
    ensures Legal(s, call.op, call.reply, s) && Balanced(s, calls - multiset{call})
  {
    assert Alternates(call.op.name in s, TallyOf(calls, call.op.name));
    assert TallyOf(calls - multiset{call}, call.op.name) == TallyOf(calls, call.op.name);
    StaysBalanced(s, calls, call, s);
  }

  lemma {:induction false} BalancedHasOrder(s: Store, calls: multiset<Call>) returns (order: seq<Call>)
    requires Balanced(s, calls) && Lifecycles(calls)
    ensures multiset(order) == calls && LegalRun(s, order)
    decreases |calls|
  {
    order := [];
    if calls != multiset{} {
      var call, t := NextCall(s, calls);
      var rest := BalancedHasOrder(t, calls - multiset{call});
      order := [call] + rest;
      CallThenRest(s, call, t, rest);
    }
  }

  lemma NextCall(s: Store, calls: multiset<Call>) returns (call: Call, t: Store)
    requires Balanced(s, calls) && Lifecycles(calls) && calls != multiset{}
    ensures call in calls && Legal(s, call.op, call.reply, t) && Balanced(t, calls - multiset{call})
  {
    var some :| some in calls;
    assert Lifecycle(some);
    if TallyOf(calls, some.op.name) != Tally(0, 0, 0, 0, 0, 0) {
      call, t := OneCallNow(s, calls, some.op.name);
    } else {
      FailedNow(s, calls, some);
      call, t := some, s;
    }
  }

  lemma CallThenRest(s: Store, call: Call, t: Store, rest: seq<Call>)
    requires Legal(s, call.op, call.reply, t) && LegalRun(t, rest)
    ensures LegalRun(s, [call] + rest) && multiset([call] + rest) == multiset{call} + multiset(rest)
  {
    var order := [call] + rest;
    assert order[1..] == rest;
    FirstCall(order);
    assert Legal(s, order[0].op, order[0].reply, t) && LegalRun(t, order[1..]);
  }

  /** A recorded history of creations, deletions, starts and stops has a legal order exactly when every name's calls can
      alternate: from an empty store, when its successful creations are at most one more than its recorded deletions, its
      successful deletions at most its recorded creations, and it has a recorded creation if a start or stop
      succeeded. */
  lemma LegalOrderExactlyWhenBalanced(entries: seq<Entry>, s: Store)
    requires forall e :: e in entries ==> e.reply.Some?
    requires forall e :: e in entries ==> Lifecycle(Call(e.operation, e.reply.value))
    ensures HasLegalOrder(entries, s) <==> Balanced(s, multiset(CallsOf(entries)))
  {
    var calls := CallsOf(entries);
    forall c | c in multiset(calls)
      ensures Lifecycle(c)
    {
      var i :| 0 <= i < |calls| && calls[i] == c;
      assert entries[i] in entries;
    }
    if order :| multiset(order) == multiset(calls) && LegalRun(s, order) {
      LegalIsBalanced(s, order);
    } else if Balanced(s, multiset(calls)) {
      var order := BalancedHasOrder(s, multiset(calls));
      assert false;
    }
  }
}
