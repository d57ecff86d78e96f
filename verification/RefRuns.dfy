/** What holds of the counts over runs: expiry, the limit on a source's states, and
    rules that are never freed. */
module RefRuns {
  import opened Options
  import opened RefCounts
  import opened RefExpiry

  // From the empty world, where nothing lingers.
  const NO_WORLD := World(map[], map[], map[])

  lemma NoWorldInv()
    ensures Inv(NO_WORLD) && Lingering(NO_WORLD.nodes) && WithinSrcStates(NO_WORLD)
  {
  }

  // The clock has started when states expire.
  ghost predicate Timely(ops: seq<Op>) {
    forall i :: 0 <= i < |ops| && ops[i].PurgeStateOp? ==> ops[i].now > 0
  }

  /** ... over every run as well. */
  lemma {:induction false} RunLingers(w: World, ops: seq<Op>)
    requires Inv(w) && Lingering(w.nodes) && Timely(ops)
    ensures Lingering(Run(w, ops).nodes)
    decreases |ops|
  {
    hide Inv, Step, Lingering;
    if ops != [] {
      StepInv(w, ops[0]);
      StepLingers(w, ops[0]);
      assert Timely(ops[1..]) by { assert forall i :: 0 <= i < |ops[1..]| ==> ops[1..][i] == ops[i + 1]; }
      RunLingers(Step(w, ops[0]), ops[1..]);
    }
  }

  // ------------------------------------------------------ the limit, over runs

  // A request that overfills a node.
  predicate OverfillsNode(w: World, op: Op) {
    op.CreateOp? && RequestOk(w, op.q) && Create(w, op.q).0 && Overfills(w, op.q)
  }

  /** Of all steps only a creation that overfills a node takes it above its limit. */
  lemma StepWithinExactly(w: World, op: Op)
    requires Inv(w) && WithinSrcStates(w)
    ensures WithinSrcStates(Step(w, op)) <==> !OverfillsNode(w, op)
  {
    hide WithinSrcStates, RequestOk, Create, PurgeState, PurgeNode, RulesCounted, NodesCounted, Overfills;
    match op
    case CreateOp(q) => if RequestOk(w, q) { CreateWithinExactly(w, q); }
    case _ =>
      if !op.CreateOp? {
        StepShrinks(w, op);
        WithinStays(w, Step(w, op));
      }
  }

  lemma StepShrinks(w: World, op: Op)
    requires Inv(w) && !op.CreateOp?
    ensures var w1 := Step(w, op);
            && (forall k :: k in w1.nodes ==> k in w.nodes && w1.nodes[k].states <= w.nodes[k].states)
            && (forall k, r :: k in w1.nodes && k.rule == Some(r) && r in w1.rules ==>
                 r in w.rules && w1.rules[r].info == w.rules[r].info)
  {
    hide RuleCounts, NodeCounts, Named, WithinMax, WithinMaxNodes, PurgeState, RulesCounted, NodesCounted;
    if op.PurgeStateOp? && op.id in w.states {
      CountedByInv(w, op.id);
      PurgedRules(w, op.id, op.now);
      PurgedOthers(w, op.id, op.now);
    } else if op.PurgeNodeOp? && op.k in w.nodes {
      NodeRuleCounted(w, op.k);
    }
  }

  ghost predicate NeverOverfills(w: World, ops: seq<Op>)
    requires Inv(w)
    decreases |ops|
  {
    ops == [] || (!OverfillsNode(w, ops[0]) && (StepInv(w, ops[0]); NeverOverfills(Step(w, ops[0]), ops[1..])))
  }

  lemma {:induction false} RunWithin(w: World, ops: seq<Op>)
    requires Inv(w) && WithinSrcStates(w) && NeverOverfills(w, ops)
    ensures WithinSrcStates(Run(w, ops))
    decreases |ops|
  {
    hide Inv, Step, WithinSrcStates, OverfillsNode;
    if ops != [] {
      StepInv(w, ops[0]);
      StepWithinExactly(w, ops[0]);
      RunWithin(Step(w, ops[0]), ops[1..]);
    }
  }

  // A NAT rule with sticky addresses and a limit of one state a source.
  const ONE_STATE := Info(TranslationRule, false, false, true, false, true, 0, 1, 0, 0)
  const PASS_RULE := Info(FilterRule, false, false, false, false, false, 0, 0, 0, 0)
  const PAIR: Rules := map[1 := Rule(ONE_STATE, true, 0, 0), 2 := Rule(PASS_RULE, true, 0, 0)]

  // Source 5 goes out: translated to 9 the first time, no port left the second time.
  const MAPPED := Request(0, 2, Some(1), None, Some(1), true, 2, 9, 5, 1, true, true, true, true, true)
  const IN_VAIN := Request(1, 2, None, None, Some(1), true, 2, 5, 5, 1, true, true, true, true, true)
  const SOURCE := NodeKey(Some(1), 2, 5)

  const AFTER_MAPPED := World(
    map[1 := Rule(ONE_STATE, true, 1, 1), 2 := Rule(PASS_RULE, true, 1, 0)], map[SOURCE := Node(1, 0)],
    map[0 := State(2, Some(1), None, None, Some(SOURCE))])

  lemma FirstIsMapped()
    ensures var w := World(PAIR, map[], map[]);
            RequestOk(w, MAPPED) && Create(w, MAPPED) == (true, AFTER_MAPPED)
  {
    var w := World(PAIR, map[], map[]);
    assert RequestOk(w, MAPPED);
    assert FilterNode(w, MAPPED) == (true, None, w);
    var w1 := World(PAIR[1 := Rule(ONE_STATE, true, 0, 1)], map[SOURCE := Node(0, 0)], map[]);
    assert NatNode(w, MAPPED, None) == (true, Some(SOURCE), w1);
    assert FindNodes(w, MAPPED) == (true, None, Some(SOURCE), w1);
    var s := State(2, Some(1), None, None, Some(SOURCE));
    assert StateOf(w1, MAPPED, None, Some(SOURCE)) == s;
    assert Increment(w1.rules, s) == AFTER_MAPPED.rules;
    assert Hold(Hold(w1.nodes, None), Some(SOURCE)) == AFTER_MAPPED.nodes;
    assert w1.states[0 := s] == AFTER_MAPPED.states;
  }

  /** A source at its limit of one state whose search for a port then fails gets a
      second state, and the limit of its node is broken. */
  lemma LimitIsOverrun()
    ensures var w := World(PAIR, map[], map[]);
            && RequestOk(w, MAPPED) && RequestOk(Create(w, MAPPED).1, IN_VAIN)
            && var (ok, w1) := Create(Create(w, MAPPED).1, IN_VAIN);
            && ok && SOURCE in w1.nodes && w1.nodes[SOURCE].states == 2 && !WithinSrcStates(w1)
  {
    FirstIsMapped();
    var w := AFTER_MAPPED;
    assert RequestOk(w, IN_VAIN);
    assert FindNodes(w, IN_VAIN) == (true, None, Some(SOURCE), w);
    var w1 := Create(w, IN_VAIN).1;
    assert w1.nodes == map[SOURCE := Node(2, 0)];
    assert !NodeWithin(w1.rules, SOURCE, 2);
  }

  // ------------------------------------------------------- rules that are never freed

  // On no list, used by nothing, and still there.
  predicate Orphan(w: World, r: nat) {
    r in w.rules && !w.rules[r].linked && w.rules[r].states == 0 && w.rules[r].srcNodes == 0
  }

  /** When an unlinked rule without states loses its last source node, it is freed if
      and only if it has no limit on source nodes; with one it is left an orphan. */
  lemma LastNodeFreesExactly(w: World, k: NodeKey, now: nat, r: nat)
    requires k in w.nodes && k.rule == Some(r) && r in w.rules && w.rules[r].srcNodes == 1
    requires w.nodes[k].states == 0 && w.nodes[k].expire <= now
    requires w.rules[r].states == 0 && !w.rules[r].linked
    ensures k !in PurgeNode(w, k, now).nodes
    ensures r !in PurgeNode(w, k, now).rules <==> w.rules[r].info.maxSrcNodes == 0
    ensures Orphan(PurgeNode(w, k, now), r) <==> w.rules[r].info.maxSrcNodes > 0
  {
  }

  predicate IsLinked(w: World, r: Option<nat>) { r.Some? ==> r.value in w.rules && w.rules[r.value].linked }

  // Only rules on lists are unlinked, or match packets.
  predicate OfLinked(w: World, op: Op) {
    && (op.UnlinkOp? ==> IsLinked(w, Some(op.r)))
    && (op.CreateOp? ==> && IsLinked(w, Some(op.q.rule)) && IsLinked(w, op.q.natRule)
                         && IsLinked(w, op.q.anchor) && IsLinked(w, op.q.asked))
  }

  ghost predicate LinkedRun(w: World, ops: seq<Op>)
    requires Inv(w)
    decreases |ops|
  {
    ops == [] || (OfLinked(w, ops[0]) && (StepInv(w, ops[0]); LinkedRun(Step(w, ops[0]), ops[1..])))
  }

  lemma CreateKeepsOthers(w: World, q: Request, r: nat)
    requires RequestOk(w, q) && r in w.rules && r != q.rule && q.natRule != Some(r) && q.anchor != Some(r)
    ensures r in Create(w, q).1.rules && Create(w, q).1.rules[r] == w.rules[r]
  {
    hide InsertSrcNode, Cleanup, Hold, RemoveFromNodes, MappedNode, NodesGrew, NodesCounted;
    NodesFound(w, q);
    FindNodesOthers(w, q, r);
    if !AtMax(w, q) {
      var (ok, sn, nsn, w1) := FindNodes(w, q);
      CleanupKeeps(w1, sn, nsn);
      if ok && q.stateMemory {
        var s := StateOf(w1, q, sn, nsn);
        SameRulesNamed(w, w1, q, s);
        IncrementCounts(w1.rules, s);
        IncrementDecrement(w1.rules, s);
        HeldNodes(w, q);
      }
    }
    CleanupKeeps(w, None, NodeOfTranslation(w, q));
  }

  // Insertion counts nodes for one rule only.
  lemma InsertOthers(w: World, sn: Option<NodeKey>, rule: nat, af: nat, addr: nat, memory: bool, r: nat)
    requires rule in w.rules && (sn.Some? ==> sn.value in w.nodes) && r in w.rules && r != rule
    ensures var w1 := InsertSrcNode(w, sn, rule, af, addr, memory).2; r in w1.rules && w1.rules[r] == w.rules[r]
  {
  }

  lemma FindNodesOthers(w: World, q: Request, r: nat)
    requires RequestOk(w, q) && r in w.rules && r != q.rule && q.natRule != Some(r)
    ensures var w1 := FindNodes(w, q).3; r in w1.rules && w1.rules[r] == w.rules[r]
  {
    hide NodesGrew, MappedNode, InsertSrcNode;
    FilterNodeFacts(w, q);
    InsertOthers(w, None, q.rule, q.af, q.saddr, q.nodeMemory, r);
    var (ok, _, w1) := FilterNode(w, q);
    GrewKeys(w, w1);
    if ok {
      NatNodeOthers(w1, q, NodeOfTranslation(w, q), r);
    }
  }

  lemma NatNodeOthers(w: World, q: Request, nsn: Option<NodeKey>, r: nat)
    requires (q.natRule.Some? ==> q.natRule.value in w.rules) && (nsn.Some? ==> nsn.value in w.nodes)
    requires r in w.rules && q.natRule != Some(r)
    ensures var w1 := NatNode(w, q, nsn).2; r in w1.rules && w1.rules[r] == w.rules[r]
  {
    hide InsertSrcNode;
    if q.natRule.Some? && w.rules[q.natRule.value].info.sticky {
      var nr := q.natRule.value;
      InsertOthers(w, nsn, nr, q.af, q.baddr, q.natNodeMemory, r);
      var (ok, nsn1, w1) := if q.out then InsertSrcNode(w, nsn, nr, q.af, q.baddr, q.natNodeMemory) else (true, nsn, w);
      if ok {
        InsertOthers(w1, nsn1, nr, q.af, q.saddr, q.natNodeMemory, r);
      }
    }
  }

  lemma StepKeepsOrphan(w: World, op: Op, r: nat)
    requires Inv(w) && Orphan(w, r) && OfLinked(w, op)
    ensures Orphan(Step(w, op), r)
  {
    hide Create, PurgeState, Named, WithinMax, WithinMaxNodes, NodeCounts, RuleCounts, NodesOf;
    match op
    case CreateOp(q) => if RequestOk(w, q) { CreateKeepsOthers(w, q, r); }
    case PurgeStateOp(id, now) =>
      if id in w.states {
        CountedByInv(w, id);
        MentionsNamed(w, id);
        PurgedRules(w, id, now);
      }
    case PurgeNodeOp(k, now) =>
      if k in w.nodes {
        NodeRuleCounted(w, k);
      }
    case _ =>
  }

  /** Such a rule stays for ever: nothing that can happen to rules on lists, states
      and nodes frees it. */
  lemma {:induction false} OrphanForever(w: World, ops: seq<Op>, r: nat)
    requires Inv(w) && Orphan(w, r) && LinkedRun(w, ops)
    ensures Orphan(Run(w, ops), r)
    decreases |ops|
  {
    hide Inv, Step, Orphan, OfLinked;
    if ops != [] {
      StepInv(w, ops[0]);
      StepKeepsOrphan(w, ops[0], r);
      OrphanForever(Step(w, ops[0]), ops[1..], r);
    }
  }

  // A filter rule that tracks sources and has a limit on them.
  const TRACKING := Info(FilterRule, true, true, false, false, false, 0, 0, 1, 0)
  const TRACKED := Request(0, 1, None, None, None, false, 2, 5, 5, 1, true, true, true, true, true)

  /** A run that leaves one: load such a rule, let a packet make a state, take the rule
      off its list, and let the state and then the source node expire. */
  lemma OrphanIsReached()
    ensures Inv(NO_WORLD)
    ensures var ops := [Load(1, TRACKING), CreateOp(TRACKED), UnlinkOp(1), PurgeStateOp(0, 1), PurgeNodeOp(SOURCE, 1)];
            LinkedRun(NO_WORLD, ops) && Orphan(Run(NO_WORLD, ops), 1)
  {
    hide Inv, Create, PurgeState;
    NoWorldInv();
    var ops := [Load(1, TRACKING), CreateOp(TRACKED), UnlinkOp(1), PurgeStateOp(0, 1), PurgeNodeOp(SOURCE, 1)];
    var w1 := World(map[1 := Rule(TRACKING, true, 0, 0)], map[], map[]);
    var s := State(1, None, None, Some(SOURCE), None);
    var w2 := World(map[1 := Rule(TRACKING, true, 1, 1)], map[SOURCE := Node(1, 0)], map[0 := s]);
    var w3 := World(map[1 := Rule(TRACKING, false, 1, 1)], w2.nodes, w2.states);
    var w4 := World(map[1 := Rule(TRACKING, false, 0, 1)], map[SOURCE := Node(0, 1)], map[]);
    var w5 := World(map[1 := Rule(TRACKING, false, 0, 0)], map[], map[]);
    StepInv(NO_WORLD, ops[0]);
    assert Step(NO_WORLD, ops[0]) == w1;
    TrackedIsCreated();
    StepInv(w1, ops[1]);
    assert Step(w1, ops[1]) == w2;
    StepInv(w2, ops[2]);
    assert Step(w2, ops[2]) == w3;
    StepInv(w3, ops[3]);
    TrackedIsPurged();
    assert Step(w3, ops[3]) == w4;
    StepInv(w4, ops[4]);
    assert Step(w4, ops[4]) == w5;
    RunOf(NO_WORLD, w1, w2, w3, w4, w5, ops);
  }

  lemma TrackedIsCreated()
    ensures var w := World(map[1 := Rule(TRACKING, true, 0, 0)], map[], map[]);
            RequestOk(w, TRACKED) &&
            Create(w, TRACKED) == (true, World(map[1 := Rule(TRACKING, true, 1, 1)], map[SOURCE := Node(1, 0)],
                                              map[0 := State(1, None, None, Some(SOURCE), None)]))
  {
    var w := World(map[1 := Rule(TRACKING, true, 0, 0)], map[], map[]);
    var w1 := World(map[1 := Rule(TRACKING, true, 0, 1)], map[SOURCE := Node(0, 0)], map[]);
    assert RequestOk(w, TRACKED);
    assert KeyFor(w.rules, 1, 2, 5) == SOURCE;
    assert w.rules[1 := w.rules[1].(srcNodes := 1)] == w1.rules && w.nodes[SOURCE := Node(0, 0)] == w1.nodes;
    assert FilterNode(w, TRACKED) == (true, Some(SOURCE), w1);
    assert FindNodes(w, TRACKED) == (true, Some(SOURCE), None, w1);
    var s := State(1, None, None, Some(SOURCE), None);
    assert Increment(w1.rules, s) == map[1 := Rule(TRACKING, true, 1, 1)];
    assert Hold(Hold(w1.nodes, Some(SOURCE)), None) == map[SOURCE := Node(1, 0)];
    assert w1.states[0 := s] == map[0 := s];
  }

  lemma TrackedIsPurged()
    ensures var w := World(map[1 := Rule(TRACKING, false, 1, 1)], map[SOURCE := Node(1, 0)],
                           map[0 := State(1, None, None, Some(SOURCE), None)]);
            RulesCounted(w.rules, w.states[0]) && NodesCounted(w.nodes, w.states[0]) &&
            PurgeState(w, 0, 1) == World(map[1 := Rule(TRACKING, false, 0, 1)], map[SOURCE := Node(0, 1)], map[])
  {
  }

  // A run of five steps, spelled out.
  lemma RunOf(w0: World, w1: World, w2: World, w3: World, w4: World, w5: World, ops: seq<Op>)
    requires |ops| == 5 && Inv(w0) && Inv(w1) && Inv(w2) && Inv(w3) && Inv(w4) && Inv(w5)
    requires Step(w0, ops[0]) == w1 && Step(w1, ops[1]) == w2 && Step(w2, ops[2]) == w3
    requires Step(w3, ops[3]) == w4 && Step(w4, ops[4]) == w5
    requires OfLinked(w0, ops[0]) && OfLinked(w1, ops[1]) && OfLinked(w2, ops[2]) && OfLinked(w3, ops[3])
    requires OfLinked(w4, ops[4])
    ensures LinkedRun(w0, ops) && Run(w0, ops) == w5
  {
    hide Inv, Step, OfLinked;
    assert ops[4..][1..] == [] && ops[3..][1..] == ops[4..] && ops[2..][1..] == ops[3..] && ops[1..][1..] == ops[2..];
    assert LinkedRun(w5, []) && Run(w5, []) == w5;
    assert LinkedRun(w4, ops[4..]) && Run(w4, ops[4..]) == w5;
    assert LinkedRun(w3, ops[3..]) && Run(w3, ops[3..]) == w5;
    assert LinkedRun(w2, ops[2..]) && Run(w2, ops[2..]) == w5;
    assert LinkedRun(w1, ops[1..]) && Run(w1, ops[1..]) == w5;
  }
}
