/** Anti-affinity (`anti_affinity.rs`): the count index, the two gates built on it, and the limits it keeps. */
module AntiAffinity {
  import opened Outcomes

  /** A placed machine: the groups it lists, in order and possibly repeated, and its node. */
  datatype Vm = Vm(groups: seq<string>, node: nat)

  datatype Kind = Hard | Soft(weight: real)

  datatype Rule = Rule(kind: Kind, group: string, maxPerNode: nat)

  /** Why a node was refused. */
  datatype Violation = Violation(group: string, count: nat, node: nat, max: nat)

  // ---------------------------------------------------------------- counting by hand

  function Listed(groups: seq<string>, g: string): nat {
    if groups == [] then 0
    else Listed(groups[..|groups| - 1], g) + (if groups[|groups| - 1] == g then 1 else 0)
  }

  /** How often machines on `node` list group `g`. */
  function Count(vms: seq<Vm>, g: string, node: nat): nat {
    if vms == [] then 0
    else Count(vms[..|vms| - 1], g, node)
         + (if vms[|vms| - 1].node == node then Listed(vms[|vms| - 1].groups, g) else 0)
  }

  /** How many machines on `node` belong to group `g`. */
  function Members(vms: seq<Vm>, g: string, node: nat): nat {
    if vms == [] then 0
    else Members(vms[..|vms| - 1], g, node)
         + (if vms[|vms| - 1].node == node && g in vms[|vms| - 1].groups then 1 else 0)
  }

  predicate Reached(vms: seq<Vm>, rule: Rule, node: nat) {
    Count(vms, rule.group, node) >= rule.maxPerNode
  }

  /** What a hard gate has to decide, by counting. */
  ghost predicate Accepts(vms: seq<Vm>, rules: seq<Rule>, node: nat) {
    forall rule :: rule in rules && rule.kind.Hard? ==> !Reached(vms, rule, node)
  }

  /** The penalty, by counting. */
  function Penalty(vms: seq<Vm>, rules: seq<Rule>, node: nat): real {
    if rules == [] then 0.0
    else Penalty(vms, rules[..|rules| - 1], node) + RulePenalty(vms, rules[|rules| - 1], node)
  }

  function RulePenalty(vms: seq<Vm>, rule: Rule, node: nat): real {
    if rule.kind.Soft? && Reached(vms, rule, node) then
      (Count(vms, rule.group, node) - rule.maxPerNode + 1) as real * rule.kind.weight
    else 0.0
  }

  // ---------------------------------------------------------------- the index

  type Index = map<string, map<nat, nat>>

  function Lookup(index: Index, g: string, node: nat): nat {
    if g in index && node in index[g] then index[g][node] else 0
  }

  function Bump(index: Index, g: string, node: nat): Index {
    index[g := (if g in index then index[g] else map[])[node := Lookup(index, g, node) + 1]]
  }

  /** Only positive counts are stored. */
  predicate NoZero(index: Index) {
    forall g | g in index :: forall node | node in index[g] :: index[g][node] > 0
  }

  class AntiAffinityChecker {
    var distribution: Index
    ghost var vms: seq<Vm>

    /** The index agrees with a recount of the machines it was built from. */
    ghost predicate Valid()
      reads this
    {
      NoZero(distribution) && forall g, node :: Lookup(distribution, g, node) == Count(vms, g, node)
    }

    constructor (placed: seq<Vm>)
      ensures Valid() && vms == placed
    {
      distribution := map[];
      vms := [];
      new;
      for i := 0 to |placed|
        invariant vms == placed[..i] && Valid()
      {
        var vm := placed[i];
        for j := 0 to |vm.groups|
          invariant vms == placed[..i] && NoZero(distribution)
          invariant forall g, node :: Lookup(distribution, g, node)
                                      == Count(vms, g, node) + (if node == vm.node then Listed(vm.groups[..j], g) else 0)
        {
          assert vm.groups[..j + 1][..j] == vm.groups[..j];
          distribution := Bump(distribution, vm.groups[j], vm.node);
        }
        assert vm.groups[..|vm.groups|] == vm.groups && placed[..i + 1][..i] == placed[..i];
        vms := placed[..i + 1];
      }
      assert placed[..|placed|] == placed;
    }

    /** Refuses a node exactly when some hard rule's limit is reached there, naming the first such rule. */
    method CheckHardConstraints(rules: seq<Rule>, node: nat) returns (r: Result<(), Violation>)
      requires Valid()
      ensures r.Ok? <==> Accepts(vms, rules, node)
      ensures r.Err? ==> exists i :: 0 <= i < |rules| && rules[i].kind.Hard? && Reached(vms, rules[i], node)
                                     && Accepts(vms, rules[..i], node)
                                     && r.error == Violation(rules[i].group, Count(vms, rules[i].group, node), node, rules[i].maxPerNode)
    {
      for i := 0 to |rules|
        invariant Accepts(vms, rules[..i], node)
      {
        var rule := rules[i];
        if rule.kind.Hard? {
          var count := Lookup(distribution, rule.group, node);
          if count >= rule.maxPerNode {
            assert rule in rules && Reached(vms, rule, node);
            return Err(Violation(rule.group, count, node, rule.maxPerNode));
          }
        }
        assert rules[..i + 1] == rules[..i] + [rule];
      }
      assert rules[..|rules|] == rules;
      r := Ok(());
    }

    method SoftConstraintPenalty(rules: seq<Rule>, node: nat) returns (total: real)
      requires Valid()
      ensures total == Penalty(vms, rules, node)
    {
      total := 0.0;
      for i := 0 to |rules|
        invariant total == Penalty(vms, rules[..i], node)
      {
        assert rules[..i + 1][..i] == rules[..i];
        var rule := rules[i];
        if rule.kind.Soft? {
          var count := Lookup(distribution, rule.group, node);
          if count >= rule.maxPerNode {
            total := total + (count - rule.maxPerNode + 1) as real * rule.kind.weight;
          }
        }
      }
      assert rules[..|rules|] == rules;
    }

    /** The nodes that hold a machine of some hard rule's group and have reached its limit. */
    method ViolatingNodes(rules: seq<Rule>) returns (nodes: set<nat>)
      requires Valid()
      ensures forall node :: node in nodes <==> ListsNode(vms, rules, node)
    {
      nodes := {};
      for i := 0 to |rules|
        invariant forall node :: node in nodes <==> ListsNode(vms, rules[..i], node)
      {
        var rule := rules[i];
        ghost var before := nodes;
        if rule.kind.Hard? && rule.group in distribution {
          var left := distribution[rule.group].Keys;
          while left != {}
            invariant left <= distribution[rule.group].Keys
            invariant forall node :: node in nodes <==>
              (node in before || (node in distribution[rule.group].Keys - left && Reached(vms, rule, node)))
            decreases |left|
          {
            var node :| node in left;
            assert Lookup(distribution, rule.group, node) == Count(vms, rule.group, node);
            if distribution[rule.group][node] >= rule.maxPerNode {
              nodes := nodes + {node};
            }
            left := left - {node};
          }
        }
        assert rules[..i + 1] == rules[..i] + [rule];
        forall node
          ensures node in nodes <==> ListsNode(vms, rules[..i + 1], node)
        {
          assert Lookup(distribution, rule.group, node) == Count(vms, rule.group, node);
          ListsOneMore(vms, rules[..i], rule, node);
        }
      }
      assert rules[..|rules|] == rules;
    }
  }

  predicate Crowds(vms: seq<Vm>, rule: Rule, node: nat) {
    rule.kind.Hard? && Count(vms, rule.group, node) > 0 && Reached(vms, rule, node)
  }

  ghost predicate ListsNode(vms: seq<Vm>, rules: seq<Rule>, node: nat) {
    exists rule :: rule in rules && Crowds(vms, rule, node)
  }

  lemma ListsOneMore(vms: seq<Vm>, rules: seq<Rule>, rule: Rule, node: nat)
    ensures ListsNode(vms, rules + [rule], node) <==> ListsNode(vms, rules, node) || Crowds(vms, rule, node)
  {
    assert rule in rules + [rule];
    if ListsNode(vms, rules, node) {
      var other :| other in rules && Crowds(vms, other, node);
      assert other in rules + [rule];
    }
  }
}
