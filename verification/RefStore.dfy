/** RefCounts and RefExpiry in place. */
module RefStore {
  import opened Options
  import opened RefCounts
  import opened RefExpiry

  /** Rules, source nodes and states with their counters. */
  class Accounts {
    var rules: Rules
    var nodes: Nodes
    var states: States

    function Contents(): World
      reads this
    {
      World(rules, nodes, states)
    }

    constructor ()
      ensures Contents() == World(map[], map[], map[]) && Inv(Contents())
    {
      rules, nodes, states := map[], map[], map[];
    }

    // pf_rm_rule
    method RemoveRule(queued: bool, r: nat)
      requires r in rules
      modifies this`rules
      ensures rules == if queued then Unlink(old(rules), r) else RmRule(old(rules), r)
    {
      if queued {
        rules := rules[r := rules[r].(linked := false)];
      }
      if rules[r].states > 0 || rules[r].srcNodes > 0 || rules[r].linked {
        return;
      }
      rules := rules - {r};
    }

    method FindOrInsertSrcNode(sn: Option<NodeKey>, r: nat, af: nat, addr: nat, memory: bool)
      returns (ok: bool, found: Option<NodeKey>)
      requires r in rules && (sn.Some? ==> sn.value in nodes)
      modifies this`rules, this`nodes
      ensures (ok, found, Contents()) == InsertSrcNode(old(Contents()), sn, r, af, addr, memory)
    {
      found := sn;
      var k := KeyFor(rules, r, af, addr);
      if found == None && k in nodes {
        found := Some(k);
      }
      if found == None {
        if !(rules[r].info.maxSrcNodes == 0 || rules[r].srcNodes < rules[r].info.maxSrcNodes) || !memory {
          return false, None;
        }
        found := Some(k);
        nodes := nodes[k := Node(0, 0)];
        if k.rule.Some? {
          rules := rules[r := rules[r].(srcNodes := rules[r].srcNodes + 1)];
        }
      } else if rules[r].info.maxSrcStates > 0 && nodes[found.value].states >= rules[r].info.maxSrcStates {
        return false, found;
      }
      ok := true;
    }

    // The label `cleanup`.
    method DropUnused(sn: Option<NodeKey>, nsn: Option<NodeKey>)
      requires (sn.Some? ==> sn.value in nodes) && (nsn.Some? ==> nsn.value in nodes)
      modifies this`nodes
      ensures Contents() == Cleanup(old(Contents()), sn, nsn)
    {
      if sn.Some? && nodes[sn.value].states == 0 && nodes[sn.value].expire == 0 {
        nodes := nodes - {sn.value};
      }
      if nsn != sn && nsn.Some? && nodes[nsn.value].states == 0 && nodes[nsn.value].expire == 0 {
        nodes := nodes - {nsn.value};
      }
    }

    method Count(r: nat, n: int)
      requires r in rules && rules[r].states + n >= 0
      modifies this`rules
      ensures rules == Add(old(rules), r, n)
    {
      rules := rules[r := rules[r].(states := rules[r].states + n)];
    }

    method IncrementCounters(s: State)
      requires RulesNamed(rules, s)
      modifies this`rules
      ensures rules == Increment(old(rules), s)
    {
      Count(s.rule, 1);
      if s.anchor.Some? {
        Count(s.anchor.value, 1);
      }
      if s.natRule.Some? {
        Count(s.natRule.value, 1);
      }
    }

    method DecrementCounters(s: State)
      requires RulesCounted(rules, s)
      modifies this`rules
      ensures rules == Decrement(old(rules), s)
    {
      if s.natRule.Some? {
        Count(s.natRule.value, -1);
      }
      if s.anchor.Some? {
        Count(s.anchor.value, -1);
      }
      Count(s.rule, -1);
    }

    // pf_src_tree_remove_state
    method RemoveStateFromNodes(s: State, expire: nat)
      requires NodesCounted(nodes, s)
      modifies this`nodes
      ensures nodes == RemoveFromNodes(old(nodes), s, expire)
    {
      if s.src.Some? {
        var n := nodes[s.src.value].states - 1;
        nodes := nodes[s.src.value := Node(n, if n == 0 then expire else nodes[s.src.value].expire)];
      }
      if s.natSrc != s.src && s.natSrc.Some? {
        var n := nodes[s.natSrc.value].states - 1;
        nodes := nodes[s.natSrc.value := Node(n, if n == 0 then expire else nodes[s.natSrc.value].expire)];
      }
    }

    method FindFilterNode(q: Request) returns (ok: bool, sn: Option<NodeKey>)
      requires q.rule in rules
      modifies this`rules, this`nodes
      ensures (ok, sn, Contents()) == FilterNode(old(Contents()), q)
    {
      ok, sn := true, None;
      if rules[q.rule].info.track || rules[q.rule].info.sticky {
        ok, sn := FindOrInsertSrcNode(None, q.rule, q.af, q.saddr, q.nodeMemory);
      }
    }

    method FindNatNode(q: Request, nsn0: Option<NodeKey>) returns (ok: bool, nsn: Option<NodeKey>)
      requires (q.natRule.Some? ==> q.natRule.value in rules) && (nsn0.Some? ==> nsn0.value in nodes)
      modifies this`rules, this`nodes
      ensures (ok, nsn, Contents()) == NatNode(old(Contents()), q, nsn0)
    {
      hide InsertSrcNode;
      ok, nsn := true, nsn0;
      if q.natRule.Some? && rules[q.natRule.value].info.sticky {
        if q.out {
          ok, nsn := FindOrInsertSrcNode(nsn, q.natRule.value, q.af, q.baddr, q.natNodeMemory);
        }
        if ok {
          ok, nsn := FindOrInsertSrcNode(nsn, q.natRule.value, q.af, q.saddr, q.natNodeMemory);
        }
      }
    }

    method FindSourceNodes(q: Request) returns (ok: bool, sn: Option<NodeKey>, nsn: Option<NodeKey>)
      requires RequestOk(Contents(), q)
      modifies this`rules, this`nodes
      ensures (ok, sn, nsn, Contents()) == FindNodes(old(Contents()), q)
    {
      hide FilterNode, NatNode, MappedNode, NodesGrew;
      FilterNodeFacts(Contents(), q);
      GrewKeys(Contents(), FilterNode(Contents(), q).2);
      nsn := NodeOfTranslation(Contents(), q);
      ok, sn := FindFilterNode(q);
      if ok {
        ok, nsn := FindNatNode(q, nsn);
      }
    }

    method CreateState(q: Request) returns (ok: bool)
      requires RequestOk(Contents(), q)
      modifies this
      ensures (ok, Contents()) == Create(old(Contents()), q)
    {
      hide FindNodes, Cleanup, Hold, RemoveFromNodes, Increment, Decrement, MappedNode, NodeOfTranslation, NodesGrew;
      ghost var w := Contents();
      if rules[q.rule].info.maxStates > 0 && rules[q.rule].states >= rules[q.rule].info.maxStates {
        DropUnused(None, NodeOfTranslation(Contents(), q));
        return false;
      }
      var expire := Expiry(Contents(), q);
      var found, sn, nsn := FindSourceNodes(q);
      if !found || !q.stateMemory {
        DropUnused(sn, nsn);
        return false;
      }
      ghost var w1 := Contents();
      NodesFound(w, q);
      HeldNodes(w, q);
      var s := StateOf(Contents(), q, sn, nsn);
      SameRulesNamed(w, w1, q, s);
      IncrementDecrement(w1.rules, s);
      IncrementCounters(s);
      nodes := Hold(nodes, sn);
      nodes := Hold(nodes, nsn);
      if !q.normalized || !q.inserted {
        RemoveStateFromNodes(s, expire);
        DecrementCounters(s);
        return false;
      }
      states := states[q.id := s];
      ok := true;
    }

    // `if (--rule->states <= 0 ...) pf_rm_rule(NULL, rule)`
    method ReleaseRule(r: nat, anchor: bool)
      requires r in rules && rules[r].states > 0
      modifies this`rules
      ensures rules == if anchor then ReleaseAnchor(old(rules), r) else Release(old(rules), r)
    {
      Count(r, -1);
      if rules[r].states == 0 && (anchor || rules[r].srcNodes == 0) {
        RemoveRule(false, r);
      }
    }

    method PurgeExpiredState(id: nat, now: nat)
      requires id in states && RulesCounted(rules, states[id]) && NodesCounted(nodes, states[id])
      modifies this
      ensures Contents() == PurgeState(old(Contents()), id, now)
    {
      hide RemoveFromNodes, Release, ReleaseAnchor;
      var s := states[id];
      ReleaseThree(rules, s);
      RemoveStateFromNodes(s, now + rules[s.rule].info.timeout);
      ReleaseRule(s.rule, false);
      if s.natRule.Some? {
        ReleaseRule(s.natRule.value, false);
      }
      if s.anchor.Some? {
        ReleaseRule(s.anchor.value, true);
      }
      states := states - {id};
    }

    method PurgeOneSrcNode(k: NodeKey, now: nat)
      requires Inv(Contents()) && k in nodes && nodes[k].states == 0 && nodes[k].expire <= now
      modifies this`rules, this`nodes
      ensures Inv(Contents())
      ensures k.rule.Some? ==> k.rule.value in old(rules) && old(rules)[k.rule.value].srcNodes > 0
      ensures Contents() == PurgeNode(old(Contents()), k, now)
    {
      hide Inv, RmRule;
      PurgeNodeInv(Contents(), k, now);
      if k.rule.Some? {
        var r := k.rule.value;
        rules := rules[r := rules[r].(srcNodes := rules[r].srcNodes - 1)];
        if rules[r].states == 0 && rules[r].info.maxSrcNodes == 0 {
          RemoveRule(false, r);
        }
      }
      nodes := nodes - {k};
    }

    /** pf_purge_expired_src_nodes, over the tree in its order: the expired nodes that
        no state holds go, the others stay as they are. */
    method PurgeExpiredSrcNodes(order: seq<NodeKey>, now: nat)
      requires Inv(Contents())
      requires (forall k :: k in order <==> k in nodes) && forall i, j :: 0 <= i < j < |order| ==> order[i] != order[j]
      modifies this`rules, this`nodes
      ensures Inv(Contents())
      ensures nodes == map k | k in old(nodes) && !(old(nodes)[k].states == 0 && old(nodes)[k].expire <= now) ::
                         old(nodes)[k]
    {
      hide Inv, RmRule;
      for i := 0 to |order|
        invariant Inv(Contents())
        invariant forall k :: k in nodes ==> k in old(nodes) && nodes[k] == old(nodes)[k]
        invariant forall k :: k in old(nodes) ==>
          (k !in nodes <==> k in order[..i] && old(nodes)[k].states == 0 && old(nodes)[k].expire <= now)
      {
        var k := order[i];
        assert order[..i + 1] == order[..i] + [k];
        assert k !in order[..i];
        if nodes[k].states == 0 && nodes[k].expire <= now {
          PurgeOneSrcNode(k, now);
        }
      }
      assert order[..|order|] == order;
    }

    /** DIOCCLRSRCNODES: afterwards there is no node, and no state holds one. */
    method ClearSrcNodes(order: seq<NodeKey>, now: nat)
      requires Inv(Contents()) && now > 0
      requires (forall k :: k in order <==> k in nodes) && forall i, j :: 0 <= i < j < |order| ==> order[i] != order[j]
      modifies this
      ensures Inv(Contents()) && nodes == map[]
      ensures states == Cleared(old(Contents())).states
    {
      hide Inv;
      ClearedInv(Contents());
      ghost var w := Cleared(Contents());
      states := map i | i in states :: states[i].(src := None, natSrc := None);
      nodes := map k | k in nodes :: Node(0, 1);
      assert Contents() == w;
      PurgeExpiredSrcNodes(order, now);
    }
  }
}
