/** What the anti-affinity gate keeps, over any run of placements and removals, and where it falls short. */
module AntiAffinityLimits {
  import opened AntiAffinity

  // ---------------------------------------------------------------- the two gates agree

  lemma {:induction false} EmptyNode(vms: seq<Vm>, g: string, node: nat)
    requires forall vm :: vm in vms ==> vm.node != node
    ensures Count(vms, g, node) == 0
  {
    if vms != [] {
      EmptyNode(vms[..|vms| - 1], g, node);
    }
  }

  lemma {:induction false} SomeNodeIsEmpty(vms: seq<Vm>) returns (node: nat)
    ensures forall vm :: vm in vms ==> vm.node < node
  {
    if vms == [] {
      node := 0;
    } else {
      var last := vms[|vms| - 1];
      node := SomeNodeIsEmpty(vms[..|vms| - 1]);
      if node <= last.node {
        node := last.node + 1;
      }
      assert vms == vms[..|vms| - 1] + [last];
    }
  }

  /** `get_violating_nodes` lists exactly the nodes `check_hard_constraints` refuses, exactly when no hard rule has the
      limit zero: such a rule refuses every node, and only nodes with a member of the group are listed. */
  lemma ListsExactlyTheRefused(vms: seq<Vm>, rules: seq<Rule>)
    ensures (forall node: nat :: ListsNode(vms, rules, node) <==> !Accepts(vms, rules, node))
            <==> (forall rule :: rule in rules && rule.kind.Hard? ==> rule.maxPerNode >= 1)
  {
    if rule :| rule in rules && rule.kind.Hard? && rule.maxPerNode == 0 {
      var node := SomeNodeIsEmpty(vms);
      forall g
        ensures Count(vms, g, node) == 0
      {
        EmptyNode(vms, g, node);
      }
      assert Reached(vms, rule, node);
      assert !Accepts(vms, rules, node) && !ListsNode(vms, rules, node);
    } else {
      forall node: nat
        ensures ListsNode(vms, rules, node) <==> !Accepts(vms, rules, node)
      {
        if !Accepts(vms, rules, node) {
          var rule :| rule in rules && rule.kind.Hard? && Reached(vms, rule, node);
          assert Crowds(vms, rule, node);
        }
      }
    }
  }

  // ---------------------------------------------------------------- runs

  /** A machine to be placed: the groups it lists and the rules it brings. */
  datatype Request = Request(groups: seq<string>, rules: seq<Rule>)

  datatype Event = Place(req: Request, node: nat) | Remove(i: nat)

  ghost predicate Allowed(vms: seq<Vm>, ev: Event) {
    match ev
    case Place(req, node) => Accepts(vms, req.rules, node)
    case Remove(i) => i < |vms|
  }

  function Next(vms: seq<Vm>, ev: Event): seq<Vm>
    requires ev.Remove? ==> ev.i < |vms|
  {
    match ev
    case Place(req, node) => vms + [Vm(req.groups, node)]
    case Remove(i) => vms[..i] + vms[i + 1..]
  }

  ghost predicate AllowedRun(vms: seq<Vm>, events: seq<Event>, fleet: set<Request>)
    decreases |events|
  {
    events == []
    || (Allowed(vms, events[0]) && (events[0].Place? ==> events[0].req in fleet)
        && AllowedRun(Next(vms, events[0]), events[1..], fleet))
  }

  ghost function After(vms: seq<Vm>, events: seq<Event>, fleet: set<Request>): seq<Vm>
    requires AllowedRun(vms, events, fleet)
    decreases |events|
  {
    if events == [] then vms else After(Next(vms, events[0]), events[1..], fleet)
  }

  /** No node has more than `limit` machines of group `g`. */
  ghost predicate Kept(vms: seq<Vm>, g: string, limit: nat) {
    forall node :: Members(vms, g, node) <= limit
  }

  /** The request brings a hard rule that stops it: its own group's, at `limit` or less, or one that admits nothing. */
  ghost predicate Guarded(req: Request, g: string, limit: nat) {
    exists rule :: rule in req.rules && Guards(rule, g, limit)
  }

  predicate Guards(rule: Rule, g: string, limit: nat) {
    rule.kind.Hard? && ((rule.group == g && rule.maxPerNode <= limit) || rule.maxPerNode == 0)
  }

  lemma {:induction false} ListedIsMember(groups: seq<string>, g: string)
    ensures Listed(groups, g) > 0 <==> g in groups
  {
    if groups != [] {
      ListedIsMember(groups[..|groups| - 1], g);
      assert groups == groups[..|groups| - 1] + [groups[|groups| - 1]];
    }
  }

  /** A group listed twice by one machine is counted twice, so the index never undercounts machines. */
  lemma {:induction false} MembersAtMostCount(vms: seq<Vm>, g: string, node: nat)
    ensures Members(vms, g, node) <= Count(vms, g, node)
  {
    if vms != [] {
      MembersAtMostCount(vms[..|vms| - 1], g, node);
      ListedIsMember(vms[|vms| - 1].groups, g);
    }
  }

  lemma {:induction false} RemovalLowers(vms: seq<Vm>, i: nat, g: string, node: nat)
    requires i < |vms|
    ensures Members(vms[..i] + vms[i + 1..], g, node) <= Members(vms, g, node)
  {
    var rest := vms[..i] + vms[i + 1..];
    if i == |vms| - 1 {
      assert rest == vms[..i];
    } else {
      var shorter := vms[..|vms| - 1];
      RemovalLowers(shorter, i, g, node);
      assert rest[..|rest| - 1] == shorter[..i] + shorter[i + 1..];
    }
  }

  lemma NextKeepsLimit(vms: seq<Vm>, ev: Event, g: string, limit: nat)
    requires Kept(vms, g, limit) && Allowed(vms, ev)
    requires ev.Place? && g in ev.req.groups ==> Guarded(ev.req, g, limit)
    ensures Kept(Next(vms, ev), g, limit)
  {
    var after := Next(vms, ev);
    forall node
      ensures Members(after, g, node) <= limit
    {
      if ev.Remove? {
        RemovalLowers(vms, ev.i, g, node);
      } else {
        assert after[..|after| - 1] == vms;
        MembersAtMostCount(vms, g, node);
        if g in ev.req.groups && node == ev.node {
          var rule :| rule in ev.req.rules && Guards(rule, g, limit);
          assert !Reached(vms, rule, node);
        }
      }
    }
  }

  /** Placing only on accepted nodes keeps the limit over every run, whatever groups the machines list. */
  lemma {:induction false} RunsKeepLimit(vms: seq<Vm>, events: seq<Event>, fleet: set<Request>, g: string, limit: nat)
    requires Kept(vms, g, limit) && AllowedRun(vms, events, fleet)
    requires forall req :: req in fleet && g in req.groups ==> Guarded(req, g, limit)
    ensures Kept(After(vms, events, fleet), g, limit)
    decreases |events|
  {
    if events != [] {
      NextKeepsLimit(vms, events[0], g, limit);
      RunsKeepLimit(Next(vms, events[0]), events[1..], fleet, g, limit);
    }
  }

  // ---------------------------------------------------------------- and only guarded fleets

  lemma OneMore(vms: seq<Vm>, g: string, at: nat, h: string, node: nat)
    ensures Count(vms + [Vm([g], at)], h, node) == Count(vms, h, node) + (if node == at && g == h then 1 else 0)
  {
    assert (vms + [Vm([g], at)])[..|vms|] == vms;
    assert [g][..0] == [];
    assert Listed([g], h) == Listed([g][..0], h) + (if g == h then 1 else 0);
  }

  function Copies(g: string, n: nat): seq<Vm> {
    seq(n, _ => Vm([g], 0))
  }

  lemma {:induction false} CopiesCount(g: string, n: nat, h: string)
    ensures Count(Copies(g, n), h, 0) == (if h == g then n else 0)
    ensures Members(Copies(g, n), g, 0) == n
  {
    if n > 0 {
      assert Copies(g, n)[..n - 1] == Copies(g, n - 1);
      assert Copies(g, n) == Copies(g, n - 1) + [Vm([g], 0)];
      CopiesCount(g, n - 1, h);
      OneMore(Copies(g, n - 1), g, 0, h, 0);
    }
  }

  lemma {:induction false} PileUp(req: Request, n: nat, k: nat, g: string, limit: nat, fleet: set<Request>)
    requires req in fleet && req.groups == [g] && !Guarded(req, g, limit) && n + k == limit + 1
    ensures var events := seq(k, _ => Place(req, 0));
            AllowedRun(Copies(g, n), events, fleet) && After(Copies(g, n), events, fleet) == Copies(g, n + k)
    decreases k
  {
    var events := seq(k, _ => Place(req, 0));
    if k > 0 {
      var vms := Copies(g, n);
      forall rule | rule in req.rules && rule.kind.Hard?
        ensures !Reached(vms, rule, 0)
      {
        assert !Guards(rule, g, limit);
        CopiesCount(g, n, rule.group);
      }
      assert Next(vms, events[0]) == Copies(g, n + 1);
      assert events[1..] == seq(k - 1, _ => Place(req, 0));
      PileUp(req, n + 1, k - 1, g, limit, fleet);
    }
  }

  /** For machines of at most one group, as the scheduler records them: the gate keeps the limit over every run exactly
      when every machine of the group brings a rule that stops it. */
  lemma LimitKeptExactlyWhenGuarded(fleet: set<Request>, g: string, limit: nat)
    requires forall req :: req in fleet ==> |req.groups| <= 1
    ensures (forall events | AllowedRun([], events, fleet) :: Kept(After([], events, fleet), g, limit))
            <==> (forall req :: req in fleet && g in req.groups ==> Guarded(req, g, limit))
  {
    if req :| req in fleet && g in req.groups && !Guarded(req, g, limit) {
      assert req.groups == [g];
      assert Copies(g, 0) == [];
      PileUp(req, 0, limit + 1, g, limit, fleet);
      CopiesCount(g, limit + 1, g);
      var events := seq(limit + 1, _ => Place(req, 0));
      assert !Kept(After([], events, fleet), g, limit);
    } else {
      forall events | AllowedRun([], events, fleet)
        ensures Kept(After([], events, fleet), g, limit)
      {
        RunsKeepLimit([], events, fleet, g, limit);
      }
    }
  }

  // ---------------------------------------------------------------- machines of several groups

  /** The machines of a pile on node 0, in the order they were placed. */
  function Piled(pile: seq<Request>): seq<Vm> {
    seq(|pile|, i requires 0 <= i < |pile| => Vm(pile[i].groups, 0))
  }

  /** Requests of the group that one node accepts one after the other, with nothing else on it. */
  ghost predicate IsPile(pile: seq<Request>, fleet: set<Request>, g: string) {
    forall i :: 0 <= i < |pile| ==>
      pile[i] in fleet && g in pile[i].groups && Accepts(Piled(pile[..i]), pile[i].rules, 0)
  }

  /** The requests the machines came from, each accepted over the machines still there that were placed before it. */
  ghost predicate Explains(reqs: seq<Request>, vms: seq<Vm>, fleet: set<Request>) {
    && |reqs| == |vms|
    && forall i :: 0 <= i < |vms| ==>
         reqs[i] in fleet && vms[i].groups == reqs[i].groups && Accepts(vms[..i], reqs[i].rules, vms[i].node)
  }

  lemma {:induction false} FewerCount(fewer: seq<Vm>, i: nat, vms: seq<Vm>, g: string, node: nat)
    requires i < |vms| && fewer == vms[..i] + vms[i + 1..]
    ensures Count(fewer, g, node) <= Count(vms, g, node)
  {
    if i == |vms| - 1 {
      assert fewer == vms[..i];
    } else {
      var shorter := vms[..|vms| - 1];
      assert fewer[..|fewer| - 1] == shorter[..i] + shorter[i + 1..];
      FewerCount(fewer[..|fewer| - 1], i, shorter, g, node);
    }
  }

  lemma FewerAccepts(fewer: seq<Vm>, vms: seq<Vm>, rules: seq<Rule>, at: nat, node: nat)
    requires Accepts(vms, rules, at) && forall h :: Count(fewer, h, node) <= Count(vms, h, at)
    ensures Accepts(fewer, rules, node)
  {
    forall rule | rule in rules && rule.kind.Hard?
      ensures !Reached(fewer, rule, node)
    {
      assert !Reached(vms, rule, at);
    }
  }

  lemma RemovalExplained(reqs: seq<Request>, vms: seq<Vm>, fleet: set<Request>, i: nat)
    requires Explains(reqs, vms, fleet) && i < |vms|
    ensures Explains(reqs[..i] + reqs[i + 1..], vms[..i] + vms[i + 1..], fleet)
  {
    var rs, vs := reqs[..i] + reqs[i + 1..], vms[..i] + vms[i + 1..];
    forall j | 0 <= j < |vs|
      ensures rs[j] in fleet && vs[j].groups == rs[j].groups && Accepts(vs[..j], rs[j].rules, vs[j].node)
    {
      if j < i {
        assert vs[..j] == vms[..j];
      } else {
        var before := vms[..j + 1];
        assert vs[..j] == before[..i] + before[i + 1..];
        forall h
          ensures Count(vs[..j], h, vs[j].node) <= Count(before, h, vs[j].node)
        {
          FewerCount(vs[..j], i, before, h, vs[j].node);
        }
        FewerAccepts(vs[..j], before, rs[j].rules, vs[j].node, vs[j].node);
      }
    }
  }

  lemma PlaceExplained(reqs: seq<Request>, vms: seq<Vm>, fleet: set<Request>, req: Request, node: nat)
    requires Explains(reqs, vms, fleet) && req in fleet && Accepts(vms, req.rules, node)
    ensures Explains(reqs + [req], vms + [Vm(req.groups, node)], fleet)
  {
    var next := vms + [Vm(req.groups, node)];
    assert next[..|vms|] == vms;
    assert forall j :: 0 <= j < |vms| ==> next[..j] == vms[..j];
  }

  lemma {:induction false} RunExplained(reqs: seq<Request>, vms: seq<Vm>, events: seq<Event>, fleet: set<Request>)
    returns (rs: seq<Request>)
    requires Explains(reqs, vms, fleet) && AllowedRun(vms, events, fleet)
    ensures Explains(rs, After(vms, events, fleet), fleet)
    decreases |events|
  {
    if events == [] {
      rs := reqs;
    } else {
      var next := Next(vms, events[0]);
      if events[0].Place? {
        PlaceExplained(reqs, vms, fleet, events[0].req, events[0].node);
        rs := RunExplained(reqs + [events[0].req], next, events[1..], fleet);
      } else {
        RemovalExplained(reqs, vms, fleet, events[0].i);
        rs := RunExplained(reqs[..events[0].i] + reqs[events[0].i + 1..], next, events[1..], fleet);
      }
    }
  }

  /** The requests behind the members of `g` on `node`. */
  function PileOn(reqs: seq<Request>, vms: seq<Vm>, g: string, node: nat): seq<Request>
    requires |reqs| == |vms|
    decreases |vms|
  {
    if vms == [] then []
    else
      var n := |vms| - 1;
      PileOn(reqs[..n], vms[..n], g, node) + if vms[n].node == node && g in vms[n].groups then [reqs[n]] else []
  }

  lemma PiledAppends(pile: seq<Request>, req: Request)
    ensures Piled(pile + [req]) == Piled(pile) + [Vm(req.groups, 0)]
  {
  }

  lemma {:induction false} PileCounts(reqs: seq<Request>, vms: seq<Vm>, g: string, node: nat, h: string)
    requires |reqs| == |vms| && forall i :: 0 <= i < |vms| ==> vms[i].groups == reqs[i].groups
    ensures |PileOn(reqs, vms, g, node)| == Members(vms, g, node)
    ensures Count(Piled(PileOn(reqs, vms, g, node)), h, 0) <= Count(vms, h, node)
    decreases |vms|
  {
    if vms != [] {
      var n := |vms| - 1;
      PileCounts(reqs[..n], vms[..n], g, node, h);
      var pile := PileOn(reqs[..n], vms[..n], g, node);
      if vms[n].node == node && g in vms[n].groups {
        PiledAppends(pile, reqs[n]);
        assert Piled(pile + [reqs[n]])[..|pile|] == Piled(pile);
      } else {
        assert PileOn(reqs, vms, g, node) == pile;
      }
    }
  }

  lemma PileAppends(pile: seq<Request>, req: Request, fleet: set<Request>, g: string)
    requires IsPile(pile, fleet, g) && req in fleet && g in req.groups && Accepts(Piled(pile), req.rules, 0)
    ensures IsPile(pile + [req], fleet, g)
  {
    var more := pile + [req];
    forall i | 0 <= i < |more|
      ensures more[i] in fleet && g in more[i].groups && Accepts(Piled(more[..i]), more[i].rules, 0)
    {
      assert more[..i] == pile[..i];
      assert i == |pile| ==> pile[..i] == pile;
    }
  }

  lemma LastExplained(reqs: seq<Request>, vms: seq<Vm>, fleet: set<Request>)
    requires Explains(reqs, vms, fleet) && vms != []
    ensures var n := |vms| - 1;
            && Explains(reqs[..n], vms[..n], fleet)
            && reqs[n] in fleet && vms[n].groups == reqs[n].groups && Accepts(vms[..n], reqs[n].rules, vms[n].node)
  {
    var n := |vms| - 1;
    assert forall i :: 0 <= i < n ==> vms[..n][..i] == vms[..i];
  }

  lemma PileAccepts(reqs: seq<Request>, vms: seq<Vm>, g: string, node: nat, rules: seq<Rule>)
    requires |reqs| == |vms| && forall i :: 0 <= i < |vms| ==> vms[i].groups == reqs[i].groups
    requires Accepts(vms, rules, node)
    ensures Accepts(Piled(PileOn(reqs, vms, g, node)), rules, 0)
  {
    forall h
      ensures Count(Piled(PileOn(reqs, vms, g, node)), h, 0) <= Count(vms, h, node)
    {
      PileCounts(reqs, vms, g, node, h);
    }
    FewerAccepts(Piled(PileOn(reqs, vms, g, node)), vms, rules, node, 0);
  }

  /** The members of a group on one node of any reachable cluster form a pile. */
  lemma {:induction false} MembersPileUp(reqs: seq<Request>, vms: seq<Vm>, fleet: set<Request>, g: string, node: nat)
    requires Explains(reqs, vms, fleet)
    ensures IsPile(PileOn(reqs, vms, g, node), fleet, g) && |PileOn(reqs, vms, g, node)| == Members(vms, g, node)
    decreases |vms|
  {
    PileCounts(reqs, vms, g, node, g);
    if vms != [] {
      var n := |vms| - 1;
      LastExplained(reqs, vms, fleet);
      MembersPileUp(reqs[..n], vms[..n], fleet, g, node);
      var pile := PileOn(reqs[..n], vms[..n], g, node);
      if vms[n].node == node && g in vms[n].groups {
        PileAccepts(reqs[..n], vms[..n], g, node, reqs[n].rules);
        PileAppends(pile, reqs[n], fleet, g);
      } else {
        assert PileOn(reqs, vms, g, node) == pile;
      }
    }
  }

  lemma ShorterPile(pile: seq<Request>, n: nat, fleet: set<Request>, g: string)
    requires IsPile(pile, fleet, g) && n <= |pile|
    ensures IsPile(pile[..n], fleet, g)
  {
    assert forall i :: 0 <= i < n ==> pile[..n][..i] == pile[..i];
  }

  function Placements(pile: seq<Request>): seq<Event> {
    if pile == [] then [] else [Place(pile[0], 0)] + Placements(pile[1..])
  }

  lemma {:induction false} PileRuns(pile: seq<Request>, k: nat, fleet: set<Request>, g: string)
    requires IsPile(pile, fleet, g) && k <= |pile|
    ensures AllowedRun(Piled(pile[..k]), Placements(pile[k..]), fleet)
    ensures After(Piled(pile[..k]), Placements(pile[k..]), fleet) == Piled(pile)
    decreases |pile| - k
  {
    if k == |pile| {
      assert pile[..k] == pile;
    } else {
      PileRuns(pile, k + 1, fleet, g);
      assert pile[..k + 1] == pile[..k] + [pile[k]];
      PiledAppends(pile[..k], pile[k]);
      assert pile[k..][0] == pile[k] && pile[k..][1..] == pile[k + 1..];
      FirstPlacement(Piled(pile[..k]), pile[k..], fleet);
    }
  }

  lemma FirstPlacement(vms: seq<Vm>, pile: seq<Request>, fleet: set<Request>)
    requires pile != [] && pile[0] in fleet && Accepts(vms, pile[0].rules, 0)
    requires AllowedRun(vms + [Vm(pile[0].groups, 0)], Placements(pile[1..]), fleet)
    ensures AllowedRun(vms, Placements(pile), fleet)
    ensures After(vms, Placements(pile), fleet) == After(vms + [Vm(pile[0].groups, 0)], Placements(pile[1..]), fleet)
  {
    assert Placements(pile)[1..] == Placements(pile[1..]);
  }

  lemma {:induction false} PileMembers(pile: seq<Request>, fleet: set<Request>, g: string)
    requires IsPile(pile, fleet, g)
    ensures Members(Piled(pile), g, 0) == |pile|
  {
    if pile != [] {
      var n := |pile| - 1;
      ShorterPile(pile, n, fleet, g);
      PileMembers(pile[..n], fleet, g);
      assert Piled(pile)[..n] == Piled(pile[..n]);
    }
  }

  /** For machines of any groups: the gate keeps the limit over every run, with any other machines, any other nodes and
      any removals, exactly when no `limit + 1` requests of the group can be piled on one empty node. */
  lemma LimitKeptExactlyWhenNoPile(fleet: set<Request>, g: string, limit: nat)
    ensures (forall events | AllowedRun([], events, fleet) :: Kept(After([], events, fleet), g, limit))
            <==> !(exists pile :: |pile| == limit + 1 && IsPile(pile, fleet, g))
  {
    if pile :| |pile| == limit + 1 && IsPile(pile, fleet, g) {
      PileRuns(pile, 0, fleet, g);
      PileMembers(pile, fleet, g);
      assert Piled(pile[..0]) == [] && pile[0..] == pile;
      assert !Kept(After([], Placements(pile), fleet), g, limit);
    } else {
      forall events | AllowedRun([], events, fleet)
        ensures Kept(After([], events, fleet), g, limit)
      {
        var vms := After([], events, fleet);
        var reqs := RunExplained([], [], events, fleet);
        forall node
          ensures Members(vms, g, node) <= limit
        {
          MembersPileUp(reqs, vms, fleet, g, node);
          var pile := PileOn(reqs, vms, g, node);
          if |pile| > limit {
            ShorterPile(pile, limit + 1, fleet, g);
          }
        }
      }
    }
  }

  // ---------------------------------------------------------------- the pigeonhole

  function Total(vms: seq<Vm>, g: string): nat {
    if vms == [] then 0
    else Total(vms[..|vms| - 1], g) + Listed(vms[|vms| - 1].groups, g)
  }

  function Elsewhere(vms: seq<Vm>, node: nat): seq<Vm> {
    if vms == [] then []
    else Elsewhere(vms[..|vms| - 1], node) + (if vms[|vms| - 1].node == node then [] else [vms[|vms| - 1]])
  }

  lemma {:induction false} SplitByNode(vms: seq<Vm>, g: string, node: nat)
    ensures Total(vms, g) == Total(Elsewhere(vms, node), g) + Count(vms, g, node)
    ensures forall other: nat :: other != node ==> Count(Elsewhere(vms, node), g, other) == Count(vms, g, other)
  {
    if vms != [] {
      var shorter := vms[..|vms| - 1];
      SplitByNode(shorter, g, node);
      var kept := Elsewhere(vms, node);
      if vms[|vms| - 1].node != node {
        assert kept[..|kept| - 1] == Elsewhere(shorter, node);
      } else {
        assert kept == Elsewhere(shorter, node);
      }
    }
  }

  lemma OneRowMore(limit: nat, n: nat)
    ensures limit * (n + 1) == limit * n + limit
  {
  }

  lemma {:induction false} FullNodesNeedMembers(vms: seq<Vm>, g: string, limit: nat, nodes: set<nat>)
    requires forall node :: node in nodes ==> Count(vms, g, node) >= limit
    ensures Total(vms, g) >= limit * |nodes|
    decreases |nodes|
  {
    if nodes != {} {
      var node :| node in nodes;
      var others := nodes - {node};
      SplitByNode(vms, g, node);
      FullNodesNeedMembers(Elsewhere(vms, node), g, limit, others);
      OneRowMore(limit, |others|);
    }
  }

  /** With one hard rule and fewer than limit times nodes members, some node takes the machine. */
  lemma SomeNodeAccepts(vms: seq<Vm>, rules: seq<Rule>, rule: Rule, nodes: set<nat>)
    requires forall other :: other in rules && other.kind.Hard? ==> other == rule
    requires Total(vms, rule.group) < rule.maxPerNode * |nodes|
    ensures exists node :: node in nodes && Accepts(vms, rules, node)
  {
    if forall node :: node in nodes ==> !Accepts(vms, rules, node) {
      forall node | node in nodes
        ensures Count(vms, rule.group, node) >= rule.maxPerNode
      {
        var other :| other in rules && other.kind.Hard? && Reached(vms, other, node);
      }
      FullNodesNeedMembers(vms, rule.group, rule.maxPerNode, nodes);
      assert false;
    }
  }

  // ---------------------------------------------------------------- the penalty

  /** The total weight of the soft rules about `g` whose limit the next member on `node` reaches or passes. */
  function Marginal(vms: seq<Vm>, rules: seq<Rule>, g: string, node: nat): real {
    if rules == [] then 0.0
    else var rule := rules[|rules| - 1];
         Marginal(vms, rules[..|rules| - 1], g, node)
         + (if Adds(rule, g, Count(vms, g, node)) then rule.kind.weight else 0.0)
  }

  predicate Adds(rule: Rule, g: string, count: nat) {
    rule.kind.Soft? && rule.group == g && count + 1 >= rule.maxPerNode
  }

  function Excess(count: nat, max: nat, weight: real): real {
    if count >= max then (count - max + 1) as real * weight else 0.0
  }

  lemma ExcessStep(count: nat, max: nat, weight: real)
    ensures Excess(count + 1, max, weight) == Excess(count, max, weight) + (if count + 1 >= max then weight else 0.0)
  {
    if count >= max {
      var excess := (count - max + 1) as real;
      assert (count + 1 - max + 1) as real == excess + 1.0;
      assert (excess + 1.0) * weight == excess * weight + weight;
    }
  }

  lemma PenaltyIsExcess(vms: seq<Vm>, rule: Rule, node: nat)
    requires rule.kind.Soft?
    ensures RulePenalty(vms, rule, node) == Excess(Count(vms, rule.group, node), rule.maxPerNode, rule.kind.weight)
  {
  }

  lemma RuleStep(vms: seq<Vm>, rule: Rule, g: string, at: nat, node: nat)
    ensures RulePenalty(vms + [Vm([g], at)], rule, node)
            == RulePenalty(vms, rule, node)
               + (if node == at && Adds(rule, g, Count(vms, g, node)) then rule.kind.weight else 0.0)
  {
    OneMore(vms, g, at, rule.group, node);
    if rule.kind.Soft? {
      PenaltyIsExcess(vms, rule, node);
      PenaltyIsExcess(vms + [Vm([g], at)], rule, node);
      ExcessStep(Count(vms, rule.group, node), rule.maxPerNode, rule.kind.weight);
    }
  }

  /** One more member of `g` on a node raises its penalty by exactly that weight, and no other node's. */
  lemma {:induction false} PenaltyStep(vms: seq<Vm>, rules: seq<Rule>, g: string, at: nat, node: nat)
    ensures Penalty(vms + [Vm([g], at)], rules, node)
            == Penalty(vms, rules, node) + (if node == at then Marginal(vms, rules, g, node) else 0.0)
  {
    if rules != [] {
      PenaltyStep(vms, rules[..|rules| - 1], g, at, node);
      RuleStep(vms, rules[|rules| - 1], g, at, node);
    }
  }

  // ---------------------------------------------------------------- as the scheduler builds it

  /** The scheduler hands every machine to the checker as if it ran on node 0. */
  function AsRecorded(vms: seq<Vm>): seq<Vm> {
    seq(|vms|, i requires 0 <= i < |vms| => Vm(vms[i].groups, 0))
  }

  lemma {:induction false} RecordedCount(vms: seq<Vm>, g: string)
    ensures Count(AsRecorded(vms), g, 0) == Total(vms, g)
    ensures forall node: nat :: node != 0 ==> Count(AsRecorded(vms), g, node) == 0
  {
    if vms != [] {
      var shorter := vms[..|vms| - 1];
      RecordedCount(shorter, g);
      assert AsRecorded(vms)[..|vms| - 1] == AsRecorded(shorter);
    }
  }

  /** So the scheduler's gate refuses node 0 by the whole cluster's count, and any other node only for a limit of zero. */
  lemma SchedulerGate(vms: seq<Vm>, rules: seq<Rule>, node: nat)
    ensures Accepts(AsRecorded(vms), rules, node)
            <==> forall rule :: rule in rules && rule.kind.Hard? ==>
                   (if node == 0 then Total(vms, rule.group) else 0) < rule.maxPerNode
  {
    forall rule | rule in rules
      ensures Reached(AsRecorded(vms), rule, node) <==> (if node == 0 then Total(vms, rule.group) else 0) >= rule.maxPerNode
    {
      RecordedCount(vms, rule.group);
    }
  }

  /** Runs in which the scheduler's own gate decides. */
  ghost predicate ScheduledRun(vms: seq<Vm>, events: seq<Event>, fleet: set<Request>)
    decreases |events|
  {
    events == []
    || (Allowed(if events[0].Place? then AsRecorded(vms) else vms, events[0]) && (events[0].Place? ==> events[0].req in fleet)
        && ScheduledRun(Next(vms, events[0]), events[1..], fleet))
  }

  ghost function Scheduled(vms: seq<Vm>, events: seq<Event>, fleet: set<Request>): seq<Vm>
    requires ScheduledRun(vms, events, fleet)
    decreases |events|
  {
    if events == [] then vms else Scheduled(Next(vms, events[0]), events[1..], fleet)
  }

  /** The request brings a hard rule that admits nothing. */
  ghost predicate Barred(req: Request) {
    exists rule :: rule in req.rules && rule.kind.Hard? && rule.maxPerNode == 0
  }

  /** A machine that is not barred can be placed on node 1 as often as one likes. */
  lemma {:induction false} PileOnNodeOne(vms: seq<Vm>, req: Request, n: nat, fleet: set<Request>, g: string)
    requires req in fleet && !Barred(req) && g in req.groups
    ensures var events := seq(n, _ => Place(req, 1));
            && ScheduledRun(vms, events, fleet)
            && Members(Scheduled(vms, events, fleet), g, 1) == Members(vms, g, 1) + n
    decreases n
  {
    var events := seq(n, _ => Place(req, 1));
    if n > 0 {
      SchedulerGate(vms, req.rules, 1);
      var next := Next(vms, events[0]);
      assert next[..|vms|] == vms;
      assert events[1..] == seq(n - 1, _ => Place(req, 1));
      PileOnNodeOne(next, req, n - 1, fleet, g);
    }
  }

  lemma ScheduledStep(vms: seq<Vm>, ev: Event, g: string)
    requires Allowed(if ev.Place? then AsRecorded(vms) else vms, ev) && (forall node :: Members(vms, g, node) == 0)
    requires ev.Place? && g in ev.req.groups ==> Barred(ev.req)
    ensures forall node :: Members(Next(vms, ev), g, node) == 0
  {
    match ev
    case Place(req, node) =>
      SchedulerGate(vms, req.rules, node);
      assert Next(vms, ev)[..|vms|] == vms;
    case Remove(i) =>
      forall node
        ensures Members(Next(vms, ev), g, node) == 0
      {
        RemovalLowers(vms, i, g, node);
      }
  }

  lemma {:induction false} BarredNeverPlaced(vms: seq<Vm>, events: seq<Event>, fleet: set<Request>, g: string)
    requires ScheduledRun(vms, events, fleet) && forall node :: Members(vms, g, node) == 0
    requires forall req :: req in fleet && g in req.groups ==> Barred(req)
    ensures forall node :: Members(Scheduled(vms, events, fleet), g, node) == 0
    decreases |events|
  {
    if events != [] {
      ScheduledStep(vms, events[0], g);
      BarredNeverPlaced(Next(vms, events[0]), events[1..], fleet, g);
    }
  }

  /** The scheduler's gate keeps a limit over every run exactly when it never admits a machine of the group at all:
      short of a limit of zero, no hard rule stops machines from piling up on a node other than 0. */
  lemma SchedulerKeepsLimitExactlyWhenBarred(fleet: set<Request>, g: string, limit: nat)
    ensures (forall events | ScheduledRun([], events, fleet) :: Kept(Scheduled([], events, fleet), g, limit))
            <==> (forall req :: req in fleet && g in req.groups ==> Barred(req))
  {
    if req :| req in fleet && g in req.groups && !Barred(req) {
      PileOnNodeOne([], req, limit + 1, fleet, g);
      var events := seq(limit + 1, _ => Place(req, 1));
      assert !Kept(Scheduled([], events, fleet), g, limit);
    } else {
      forall events | ScheduledRun([], events, fleet)
        ensures Kept(Scheduled([], events, fleet), g, limit)
      {
        BarredNeverPlaced([], events, fleet, g);
      }
    }
  }

  /** Two machines whose only rule is at most one of their group per node, both placed on node 1. */
  lemma SchedulerBreaksLimit(g: string)
    ensures var req := Request([g], [Rule(Hard, g, 1)]);
            var events := [Place(req, 1), Place(req, 1)];
            ScheduledRun([], events, {req}) && Members(Scheduled([], events, {req}), g, 1) == 2
  {
    var req := Request([g], [Rule(Hard, g, 1)]);
    assert !Barred(req);
    PileOnNodeOne([], req, 2, {req}, g);
    assert seq(2, _ => Place(req, 1)) == [Place(req, 1), Place(req, 1)];
  }

  /** One hard rule of limit zero and no machines: the node is refused and not listed. */
  lemma ZeroLimitIsNotListed(g: string, node: nat)
    ensures var rules := [Rule(Hard, g, 0)];
            !Accepts([], rules, node) && !ListsNode([], rules, node)
  {
    var rule := Rule(Hard, g, 0);
    assert rule in [rule] && Reached([], rule, node);
  }
}
