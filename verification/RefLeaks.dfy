/** The one counter that is not exact: the `cleanup` code of a failed creation removes
    the source nodes it has just made, but not their rules' count of them. */
module RefLeaks {
  import opened Options
  import opened RefCounts
  import opened RefExpiry
  import opened RefRuns

  // By how much a rule's `src_nodes` is more than the source nodes it has.
  ghost function Spare(w: World, r: nat): int
    requires r in w.rules
  {
    w.rules[r].srcNodes - |NodesOf(w.nodes, r)|
  }

  ghost predicate SameSpare(w: World, w1: World) {
    w1.rules.Keys == w.rules.Keys && forall r :: r in w.rules ==> Spare(w1, r) == Spare(w, r)
  }

  lemma InsertSpare(w: World, sn: Option<NodeKey>, r: nat, af: nat, addr: nat, memory: bool)
    requires r in w.rules && (sn.Some? ==> sn.value in w.nodes)
    ensures SameSpare(w, InsertSrcNode(w, sn, r, af, addr, memory).2)
  {
    hide NodesOf;
    var k, w1 := KeyFor(w.rules, r, af, addr), InsertSrcNode(w, sn, r, af, addr, memory).2;
    if k !in w.nodes && k in w1.nodes {
      forall q | q in w.rules
        ensures Spare(w1, q) == Spare(w, q)
      {
        NodesOfAdd(w.nodes, k, Node(0, 0), q);
      }
    }
  }

  lemma NatNodeSpare(w: World, q: Request, nsn: Option<NodeKey>)
    requires (q.natRule.Some? ==> q.natRule.value in w.rules) && (nsn.Some? ==> nsn.value in w.nodes)
    ensures SameSpare(w, NatNode(w, q, nsn).2)
  {
    hide InsertSrcNode, Spare;
    if q.natRule.Some? && w.rules[q.natRule.value].info.sticky {
      var nr := q.natRule.value;
      InsertSpare(w, nsn, nr, q.af, q.baddr, q.natNodeMemory);
      var (ok, nsn1, w1) := if q.out then InsertSrcNode(w, nsn, nr, q.af, q.baddr, q.natNodeMemory) else (true, nsn, w);
      if ok {
        InsertSpare(w1, nsn1, nr, q.af, q.saddr, q.natNodeMemory);
      }
    }
  }

  // Nodes are counted when they are made.
  lemma FindNodesSpare(w: World, q: Request)
    requires RequestOk(w, q)
    ensures SameSpare(w, FindNodes(w, q).3)
  {
    hide InsertSrcNode, NatNode, Spare, MappedNode, NodesGrew;
    FilterNodeFacts(w, q);
    InsertSpare(w, None, q.rule, q.af, q.saddr, q.nodeMemory);
    var (ok, _, w1) := FilterNode(w, q);
    GrewKeys(w, w1);
    if ok {
      NatNodeSpare(w1, q, NodeOfTranslation(w, q));
    }
  }

  // The creation ends in the `cleanup` code after it has looked for its nodes.
  predicate CleansUp(w: World, q: Request)
    requires RequestOk(w, q)
  {
    !AtMax(w, q) && (!FindNodes(w, q).0 || !q.stateMemory)
  }

  // The source nodes that the creation makes for a rule.
  ghost function Made(w: World, q: Request, r: nat): set<NodeKey>
    requires RequestOk(w, q)
  {
    NodesOf(FindNodes(w, q).3.nodes, r) - NodesOf(w.nodes, r)
  }

  /** A creation takes a rule's count above the number of its nodes by exactly the nodes
      it has made for that rule, if it ends in the `cleanup` code, and else not at all. */
  lemma CreateLeaksExactly(w: World, q: Request, r: nat)
    requires Inv(w) && Lingering(w.nodes) && RequestOk(w, q) && r in w.rules
    ensures r in Create(w, q).1.rules
    ensures Spare(Create(w, q).1, r) == Spare(w, r) + if CleansUp(w, q) then |Made(w, q, r)| else 0
  {
    hide FindNodes, RequestOk, Increment, Decrement, Hold, RemoveFromNodes, MappedNode, Inv, Lingering,
      NodeOfTranslation, RulesNamed, NodesNamed, RulesCounted, NodesCounted, NodesOf, Cleanup;
    RequestFacts(w, q);
    if AtMax(w, q) {
      GrewRefl(w);
      CleanupExactly(w, w, None, NodeOfTranslation(w, q));
      CleanupKeeps(w, None, NodeOfTranslation(w, q));
    } else {
      var (ok, sn, nsn, w1) := FindNodes(w, q);
      NodesFound(w, q);
      FindNodesSpare(w, q);
      if !(ok && q.stateMemory) {
        CleanupExactly(w, w1, sn, nsn);
        CleanupKeeps(w1, sn, nsn);
        MadeCount(w, q, r);
      } else {
        var s := StateOf(w1, q, sn, nsn);
        var nodes := Hold(Hold(w1.nodes, sn), nsn);
        HeldNodes(w, q);
        SameRulesNamed(w, w1, q, s);
        IncrementCounts(w1.rules, s);
        IncrementDecrement(w1.rules, s);
        RemoveFromNodesCounts(nodes, s, Expiry(w, q));
        NodesOfSame(w1.nodes, nodes, r);
        NodesOfSame(w1.nodes, RemoveFromNodes(nodes, s, Expiry(w, q)), r);
      }
    }
  }

  lemma MadeCount(w: World, q: Request, r: nat)
    requires RequestOk(w, q) && r in w.rules
    ensures |NodesOf(FindNodes(w, q).3.nodes, r)| == |NodesOf(w.nodes, r)| + |Made(w, q, r)|
  {
    hide FindNodes, RequestOk;
    NodesFound(w, q);
    var a, b := NodesOf(FindNodes(w, q).3.nodes, r), NodesOf(w.nodes, r);
    assert b <= a;
    assert a == b + (a - b);
  }

  // ---------------------------------------------------------------- starved rules

  // The rule has a limit on its source nodes, and keeps nodes of its own.
  predicate Limited(info: Info) { info.maxSrcNodes > 0 && (info.perRule || info.sticky) }

  /** A rule whose count is at the limit although it has no source node. */
  ghost predicate Starved(w: World, r: nat) {
    && r in w.rules && Limited(w.rules[r].info) && w.rules[r].srcNodes >= w.rules[r].info.maxSrcNodes
    && NoNodeOf(w.nodes, r)
  }

  ghost predicate NoNodeOf(nodes: Nodes, r: nat) { forall k :: k in nodes ==> k.rule != Some(r) }

  lemma StarvedInsert(w: World, sn: Option<NodeKey>, r: nat, af: nat, addr: nat, memory: bool)
    requires Starved(w, r) && (sn.Some? ==> sn.value in w.nodes && sn.value.rule == Some(r))
    ensures InsertSrcNode(w, sn, r, af, addr, memory) == (false, None, w)
  {
  }

  // The request needs a source node of the rule.
  predicate Needs(w: World, q: Request, r: nat)
    requires RequestOk(w, q) && r in w.rules
  {
    (q.rule == r && (w.rules[r].info.track || w.rules[r].info.sticky)) ||
    (q.natRule == Some(r) && w.rules[r].info.sticky)
  }

  /** Such a rule refuses every packet that needs a source node of it. */
  lemma StarvedRefuses(w: World, q: Request, r: nat)
    requires Starved(w, r) && RequestOk(w, q) && Needs(w, q, r)
    ensures !Create(w, q).0
  {
    hide InsertSrcNode, NodesGrew, MappedNode, NodesOf;
    if q.rule == r && (w.rules[r].info.track || w.rules[r].info.sticky) {
      StarvedInsert(w, None, r, q.af, q.saddr, q.nodeMemory);
    } else {
      TranslationNodeNamed(w, q);
      assert NodeOfTranslation(w, q).None?;
      FilterNodeFacts(w, q);
      var (ok, sn, w1) := FilterNode(w, q);
      if ok {
        FilterKeepsStarved(w, q, r);
        StarvedInsert(w1, None, r, q.af, q.baddr, q.natNodeMemory);
        StarvedInsert(w1, None, r, q.af, q.saddr, q.natNodeMemory);
      }
    }
  }

  lemma FilterKeepsStarved(w: World, q: Request, r: nat)
    requires Starved(w, r) && q.rule in w.rules
    ensures var w1 := FilterNode(w, q).2; Starved(w1, r) && w1.rules[r] == w.rules[r]
  {
    hide InsertSrcNode, NodesGrew;
    if q.rule == r {
      StarvedInsert(w, None, r, q.af, q.saddr, q.nodeMemory);
    } else {
      InsertOthers(w, None, q.rule, q.af, q.saddr, q.nodeMemory, r);
      InsertKey(w, None, q.rule, q.af, q.saddr, q.nodeMemory);
    }
  }

  // ... and stays as it is: it gets no node, and loses none.
  lemma CreateKeepsStarved(w: World, q: Request, r: nat)
    requires Starved(w, r) && RequestOk(w, q)
    ensures Starved(Create(w, q).1, r)
  {
    hide InsertSrcNode, Cleanup, Hold, RemoveFromNodes, MappedNode, NodesGrew, NodesCounted;
    NodesFound(w, q);
    if AtMax(w, q) {
      CleanupKeeps(w, None, NodeOfTranslation(w, q));
      CleanupFewer(w, None, NodeOfTranslation(w, q));
    } else {
      var (ok, sn, nsn, w1) := FindNodes(w, q);
      FindKeepsStarved(w, q, r);
      CleanupKeeps(w1, sn, nsn);
      CleanupFewer(w1, sn, nsn);
      if ok && q.stateMemory {
        var s := StateOf(w1, q, sn, nsn);
        SameRulesNamed(w, w1, q, s);
        IncrementCounts(w1.rules, s);
        IncrementDecrement(w1.rules, s);
        HeldNodes(w, q);
        RemoveFromNodesCounts(Hold(Hold(w1.nodes, sn), nsn), s, Expiry(w, q));
      }
    }
  }

  lemma CleanupFewer(w: World, sn: Option<NodeKey>, nsn: Option<NodeKey>)
    requires (sn.Some? ==> sn.value in w.nodes) && (nsn.Some? ==> nsn.value in w.nodes)
    ensures forall k :: k in Cleanup(w, sn, nsn).nodes ==> k in w.nodes
  {
  }

  lemma NatKeepsStarved(w: World, q: Request, nsn: Option<NodeKey>, r: nat)
    requires Starved(w, r) && (q.natRule.Some? ==> q.natRule.value in w.rules) && (nsn.Some? ==> nsn.value in w.nodes)
    requires nsn.Some? ==> Owner(q).Some? && nsn.value.rule == Owner(q)
    requires nsn.Some? ==> Owner(q).value in w.rules && w.rules[Owner(q).value].info.sticky
    ensures Starved(NatNode(w, q, nsn).2, r)
  {
    hide InsertSrcNode, NodesGrew;
    if q.natRule == Some(r) {
      if w.rules[r].info.sticky {
        StarvedInsert(w, nsn, r, q.af, q.baddr, q.natNodeMemory);
        StarvedInsert(w, nsn, r, q.af, q.saddr, q.natNodeMemory);
      }
    } else {
      NatNodeOthers(w, q, nsn, r);
      NatNodeFacts(w, q, nsn);
    }
  }

  lemma FindKeepsStarved(w: World, q: Request, r: nat)
    requires Starved(w, r) && RequestOk(w, q)
    ensures Starved(FindNodes(w, q).3, r)
  {
    hide InsertSrcNode, MappedNode, NodesGrew, Starved, RoomLeft, NatNode, FilterNode;
    FilterNodeFacts(w, q);
    FilterKeepsStarved(w, q, r);
    TranslationNodeNamed(w, q);
    var (ok, _, w1) := FilterNode(w, q);
    GrewKeys(w, w1);
    if ok {
      NatKeepsStarved(w1, q, NodeOfTranslation(w, q), r);
    }
  }

  lemma StepKeepsStarved(w: World, op: Op, r: nat)
    requires Inv(w) && Starved(w, r)
    ensures Starved(Step(w, op), r)
  {
    hide Create, PurgeState, PurgeNode, Named, WithinMax, WithinMaxNodes, NodeCounts, RuleCounts, NodesOf, NodeRules;
    match op
    case CreateOp(q) => if RequestOk(w, q) { CreateKeepsStarved(w, q, r); }
    case PurgeStateOp(id, now) =>
      if id in w.states {
        CountedByInv(w, id);
        PurgedRules(w, id, now);
        RemoveFromNodesCounts(w.nodes, w.states[id], now + w.rules[w.states[id].rule].info.timeout);
        assert PurgeState(w, id, now).nodes.Keys == w.nodes.Keys by { PurgedNodes(w, id, now); }
      }
    case PurgeNodeOp(k, now) => if k in w.nodes { NodeRuleCounted(w, k); PurgeNodeKeepsStarved(w, k, now, r); }
    case _ =>
  }

  lemma PurgedNodes(w: World, id: nat, now: nat)
    requires id in w.states && RulesCounted(w.rules, w.states[id]) && NodesCounted(w.nodes, w.states[id])
    ensures PurgeState(w, id, now).nodes.Keys == w.nodes.Keys
  {
    hide Release, ReleaseAnchor;
    RemoveFromNodesCounts(w.nodes, w.states[id], now + w.rules[w.states[id].rule].info.timeout);
  }

  lemma PurgeNodeKeepsStarved(w: World, k: NodeKey, now: nat, r: nat)
    requires Starved(w, r) && k in w.nodes
    requires k.rule.Some? ==> k.rule.value in w.rules && w.rules[k.rule.value].srcNodes > 0
    ensures Starved(PurgeNode(w, k, now), r)
  {
  }

  /** It stays so for ever, on its list or off it: nothing that can happen to rules,
      states and nodes frees it or lets it have a node again. */
  lemma {:induction false} StarvedForever(w: World, ops: seq<Op>, r: nat)
    requires Inv(w) && Starved(w, r)
    ensures Starved(Run(w, ops), r)
    decreases |ops|
  {
    hide Inv, Step, Starved;
    if ops != [] {
      StepInv(w, ops[0]);
      StepKeepsStarved(w, ops[0], r);
      StarvedForever(Step(w, ops[0]), ops[1..], r);
    }
  }

  // The packet of `TRACKED`, but there is no memory for its state.
  const UNLUCKY := TRACKED.(stateMemory := false)

  /** A run that starves a rule with room for one source: a state that finds no memory. */
  lemma StarvedIsReached()
    ensures Inv(NO_WORLD) && Starved(Run(NO_WORLD, [Load(1, TRACKING), CreateOp(UNLUCKY)]), 1)
  {
    hide Inv;
    NoWorldInv();
    var ops := [Load(1, TRACKING), CreateOp(UNLUCKY)];
    var w1 := World(map[1 := Rule(TRACKING, true, 0, 0)], map[], map[]);
    var w2 := World(map[1 := Rule(TRACKING, true, 0, 1)], map[], map[]);
    StepInv(NO_WORLD, ops[0]);
    assert Step(NO_WORLD, ops[0]) == w1;
    UnluckyLeaks();
    StepInv(w1, ops[1]);
    assert Step(w1, ops[1]) == w2;
    assert ops[1..][1..] == [] && Run(w2, []) == w2;
    assert Run(w1, ops[1..]) == w2;
  }

  lemma UnluckyLeaks()
    ensures var w := World(map[1 := Rule(TRACKING, true, 0, 0)], map[], map[]);
      && RequestOk(w, UNLUCKY)
      && Create(w, UNLUCKY) == (false, World(map[1 := Rule(TRACKING, true, 0, 1)], map[], map[]))
  {
    var w := World(map[1 := Rule(TRACKING, true, 0, 0)], map[], map[]);
    var w1 := World(map[1 := Rule(TRACKING, true, 0, 1)], map[SOURCE := Node(0, 0)], map[]);
    assert RequestOk(w, UNLUCKY);
    assert KeyFor(w.rules, 1, 2, 5) == SOURCE;
    assert w.rules[1 := w.rules[1].(srcNodes := 1)] == w1.rules && w.nodes[SOURCE := Node(0, 0)] == w1.nodes;
    assert FilterNode(w, UNLUCKY) == (true, Some(SOURCE), w1);
    assert FindNodes(w, UNLUCKY) == (true, Some(SOURCE), None, w1);
    assert Cleanup(w1, Some(SOURCE), None).nodes == map[];
  }
}
