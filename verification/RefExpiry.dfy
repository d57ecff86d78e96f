/** The other side of RefCounts: expiry of states and source nodes, rules that leave
    their lists, and runs of all these. */
module RefExpiry {
  import opened Options
  import opened RefCounts

  // ------------------------------------------------------------------------ expiry

  // `if (--rule->states <= 0) pf_rm_rule(NULL, rule)`
  function ReleaseAnchor(rules: Rules, r: nat): Rules
    requires r in rules && rules[r].states > 0
  {
    var n := Add(rules, r, -1);
    if n[r].states == 0 then RmRule(n, r) else n
  }

  // pf_purge_expired_state
  function PurgeState(w: World, id: nat, now: nat): World
    requires id in w.states && RulesCounted(w.rules, w.states[id]) && NodesCounted(w.nodes, w.states[id])
  {
    var s := w.states[id];
    var nodes := RemoveFromNodes(w.nodes, s, now + w.rules[s.rule].info.timeout);
    var n1 := Release(w.rules, s.rule);
    var n2 := if s.natRule.Some? then Release(n1, s.natRule.value) else n1;
    var n3 := if s.anchor.Some? then ReleaseAnchor(n2, s.anchor.value) else n2;
    World(n3, nodes, w.states - {id})
  }

  // A rule among those of a state that the state alone kept.
  predicate LastUse(rules: Rules, s: State, r: nat) {
    r in rules && Mentions(s, r) > 0 && rules[r].states == Mentions(s, r) && rules[r].srcNodes == 0 && !rules[r].linked
  }

  /** The rules after a purge: one use less for each rule named, and a rule is freed
      exactly when this was its last use, it has no source node and is on no list. */
  lemma PurgedRules(w: World, id: nat, now: nat)
    requires id in w.states && RulesCounted(w.rules, w.states[id]) && NodesCounted(w.nodes, w.states[id])
    ensures var s, n := w.states[id], PurgeState(w, id, now).rules;
            && (forall r :: r in n <==> r in w.rules && !LastUse(w.rules, s, r))
            && (forall r :: r in n ==> w.rules[r].states >= Mentions(s, r))
            && (forall r :: r in n ==> n[r] == w.rules[r].(states := w.rules[r].states - Mentions(s, r)))
  {
    hide Release, ReleaseAnchor, RemoveFromNodes, Mentions;
    var s, n := w.states[id], PurgeState(w, id, now).rules;
    ReleaseThree(w.rules, s);
    forall r
      ensures r in n <==> r in w.rules && !LastUse(w.rules, s, r)
      ensures r in n ==> w.rules[r].states >= Mentions(s, r) &&
                         n[r] == w.rules[r].(states := w.rules[r].states - Mentions(s, r))
    {
      MentionsOnce(w.rules, s, r);
    }
  }

  lemma ReleaseThree(rules: Rules, s: State)
    requires RulesCounted(rules, s)
    ensures var n1 := Release(rules, s.rule);
            && (s.natRule.Some? ==> s.natRule.value in n1 && n1[s.natRule.value].states > 0)
            && var n2 := if s.natRule.Some? then Release(n1, s.natRule.value) else n1;
            && (s.anchor.Some? ==> s.anchor.value in n2 && n2[s.anchor.value].states > 0)
            && var n := if s.anchor.Some? then ReleaseAnchor(n2, s.anchor.value) else n2;
            && (forall r :: r in n <==> r in rules && !(Names(s, r) && Single(rules[r])))
            && (forall r :: r in n && Names(s, r) ==> rules[r].states > 0)
            && (forall r :: r in n ==> n[r] == rules[r].(states := rules[r].states - Bit(Names(s, r))))
  {
    hide Release, ReleaseAnchor;
    NamedApart(rules, s);
    var n1 := Release(rules, s.rule);
    ReleaseOne(rules, s.rule);
    var n2 := if s.natRule.Some? then Release(n1, s.natRule.value) else n1;
    if s.natRule.Some? {
      ReleaseOne(n1, s.natRule.value);
    }
    if s.anchor.Some? {
      ReleaseOne(n2, s.anchor.value);
    }
  }

  // A rule with one use left, no node and no list.
  predicate Single(rule: Rule) { rule.states == 1 && rule.srcNodes == 0 && !rule.linked }

  lemma ReleaseOne(rules: Rules, r: nat)
    requires r in rules && rules[r].states > 0
    ensures ReleaseAnchor(rules, r) == Release(rules, r)
    ensures var n := Release(rules, r);
            && (r in n <==> !Single(rules[r]))
            && (r in n ==> n[r] == rules[r].(states := rules[r].states - 1))
            && (forall q :: q != r ==> (q in n <==> q in rules) && (q in n ==> n[q] == rules[q]))
  {
  }

  // The three rules of a state are of three kinds.
  lemma NamedApart(rules: Rules, s: State)
    requires RulesNamed(rules, s)
    ensures s.natRule != Some(s.rule) && s.anchor != Some(s.rule) && (s.natRule.Some? ==> s.natRule != s.anchor)
  {
  }

  lemma CountedByInv(w: World, id: nat)
    requires Inv(w) && id in w.states
    ensures RulesCounted(w.rules, w.states[id]) && NodesCounted(w.nodes, w.states[id])
    ensures forall r :: r in w.rules ==> w.rules[r].states == Uses(w.states - {id}, r) + Mentions(w.states[id], r)
    ensures forall k :: k in w.nodes ==> w.nodes[k].states == HeldBy(w.states - {id}, k) + Bit(Holds(w.states[id], k))
  {
    hide Uses, HeldBy;
    var s := w.states[id];
    forall r | r in w.rules
      ensures w.rules[r].states == Uses(w.states - {id}, r) + Mentions(s, r)
    {
      UsesRemove(w.states, id, r);
    }
    forall k | k in w.nodes
      ensures w.nodes[k].states == HeldBy(w.states - {id}, k) + Bit(Holds(s, k))
    {
      HeldRemove(w.states, id, k);
    }
  }

  // Rules that nothing refers to may go together.
  lemma FreeInv(w: World, rules: Rules)
    requires Inv(w) && rules.Keys <= w.rules.Keys && forall r :: r in rules ==> rules[r] == w.rules[r]
    requires forall r :: r in w.rules && r !in rules ==> w.rules[r].states == 0 && w.rules[r].srcNodes == 0
    ensures Inv(w.(rules := rules))
  {
    hide HeldBy, Uses, NodesOf, Mentions;
    var w1 := w.(rules := rules);
    forall i | i in w.states
      ensures RulesNamed(rules, w.states[i])
    {
      StillNamed(w, rules, i);
    }
    forall k | k in w.nodes && k.rule.Some?
      ensures k.rule.value in rules
    {
      NodesOfHas(w.nodes, k, k.rule.value);
    }
  }

  lemma StillNamed(w: World, rules: Rules, i: nat)
    requires Inv(w) && rules.Keys <= w.rules.Keys && forall r :: r in rules ==> rules[r] == w.rules[r]
    requires forall r :: r in w.rules && r !in rules ==> w.rules[r].states == 0
    requires i in w.states
    ensures RulesNamed(rules, w.states[i])
  {
    hide Uses, HeldBy;
    CountedByInv(w, i);
  }

  lemma NodesOfHas(n: Nodes, k: NodeKey, r: nat)
    requires k in n && k.rule == Some(r)
    ensures |NodesOf(n, r)| > 0
  {
    assert k in NodesOf(n, r);
  }

  // The world when a state has gone and its counts are down, before any rule goes.
  lemma RemoveStateInv(w: World, id: nat, rules: Rules, nodes: Nodes)
    requires Inv(w) && id in w.states && RulesNamed(w.rules, w.states[id])
    requires rules.Keys == w.rules.Keys && nodes.Keys == w.nodes.Keys
    requires forall r :: r in rules ==> (
               && w.rules[r].states >= Mentions(w.states[id], r)
               && rules[r] == w.rules[r].(states := w.rules[r].states - Mentions(w.states[id], r)))
    requires forall k :: k in nodes ==> nodes[k].states == w.nodes[k].states - Bit(Holds(w.states[id], k))
    ensures Inv(World(rules, nodes, w.states - {id}))
  {
    hide HeldBy, Uses, NodesOf, Mentions, Holds;
    CountedByInv(w, id);
    forall r | r in rules
      ensures |NodesOf(nodes, r)| <= rules[r].srcNodes
    {
      NodesOfSame(w.nodes, nodes, r);
    }
  }

  lemma PurgeStateInv(w: World, id: nat, now: nat)
    requires Inv(w) && id in w.states
    ensures RulesCounted(w.rules, w.states[id]) && NodesCounted(w.nodes, w.states[id])
    ensures Inv(PurgeState(w, id, now))
  {
    hide Inv, PurgeState, Mentions, RemoveFromNodes, Holds, RulesCounted, NodesCounted;
    CountedByInv(w, id);
    var s := w.states[id];
    var w1 := PurgeState(w, id, now);
    PurgedRules(w, id, now);
    PurgedOthers(w, id, now);
    var all := map r | r in w.rules :: w.rules[r].(states := w.rules[r].states - Mentions(s, r));
    MentionsNamed(w, id);
    RemoveStateInv(w, id, all, w1.nodes);
    FreeInv(World(all, w1.nodes, w.states - {id}), w1.rules);
  }

  lemma MentionsNamed(w: World, id: nat)
    requires Inv(w) && id in w.states
    ensures RulesNamed(w.rules, w.states[id])
    ensures forall r :: r in w.rules ==> w.rules[r].states >= Mentions(w.states[id], r)
  {
    hide Uses, HeldBy;
    CountedByInv(w, id);
  }

  lemma PurgedOthers(w: World, id: nat, now: nat)
    requires id in w.states && RulesCounted(w.rules, w.states[id]) && NodesCounted(w.nodes, w.states[id])
    ensures var s, w1 := w.states[id], PurgeState(w, id, now);
            && w1.states == w.states - {id} && w1.nodes.Keys == w.nodes.Keys
            && forall k :: k in w.nodes ==> w1.nodes[k].states == w.nodes[k].states - Bit(Holds(s, k))
  {
    hide Release, ReleaseAnchor;
    var s := w.states[id];
    ReleaseThree(w.rules, s);
    RemoveFromNodesCounts(w.nodes, s, now + w.rules[s.rule].info.timeout);
  }

  /** One node of pf_purge_expired_src_nodes. The rule's limit, not its count of
      nodes, is what is compared before pf_rm_rule. */
  function PurgeNode(w: World, k: NodeKey, now: nat): World
    requires k in w.nodes
    requires k.rule.Some? ==> k.rule.value in w.rules && w.rules[k.rule.value].srcNodes > 0
  {
    if w.nodes[k].states > 0 || w.nodes[k].expire > now then w
    else
      var rules :=
        if k.rule.None? then w.rules
        else
          var r := k.rule.value;
          var n := w.rules[r := w.rules[r].(srcNodes := w.rules[r].srcNodes - 1)];
          if n[r].states == 0 && n[r].info.maxSrcNodes == 0 then RmRule(n, r) else n;
      w.(rules := rules, nodes := w.nodes - {k})
  }

  lemma NodeRuleCounted(w: World, k: NodeKey)
    requires Inv(w) && k in w.nodes
    ensures k.rule.Some? ==> k.rule.value in w.rules && w.rules[k.rule.value].srcNodes > 0
  {
    hide HeldBy, Uses, NodesOf;
    if k.rule.Some? {
      NodesOfHas(w.nodes, k, k.rule.value);
    }
  }

  lemma PurgeNodeInv(w: World, k: NodeKey, now: nat)
    requires Inv(w) && k in w.nodes
    ensures k.rule.Some? ==> k.rule.value in w.rules && w.rules[k.rule.value].srcNodes > 0
    ensures Inv(PurgeNode(w, k, now))
  {
    hide HeldBy, Uses, NodesOf;
    NodeRuleCounted(w, k);
    if w.nodes[k].states == 0 && w.nodes[k].expire <= now {
      var rules := if k.rule.None? then w.rules
                   else w.rules[k.rule.value := w.rules[k.rule.value].(srcNodes := w.rules[k.rule.value].srcNodes - 1)];
      var w1 := World(rules, w.nodes - {k}, w.states);
      assert Inv(w1) by {
        NotHeld(w.states, k);
        forall r | r in rules
          ensures |NodesOf(w1.nodes, r)| <= rules[r].srcNodes
        {
          NodesOfRemove(w.nodes, k, r);
        }
      }
      FreeInv(w1, PurgeNode(w, k, now).rules);
    }
  }

  // ------------------------------------------------------------------ rules, clearing

  function UnlinkRule(w: World, r: nat): World
    requires r in w.rules
  {
    w.(rules := Unlink(w.rules, r))
  }

  lemma UnlinkInv(w: World, r: nat)
    requires Inv(w) && r in w.rules
    ensures Inv(UnlinkRule(w, r))
  {
    hide HeldBy, Uses, NodesOf, Named;
    var n := w.rules[r := w.rules[r].(linked := false)];
    NamedStays(w, n, w.nodes);
    assert Inv(w.(rules := n));
    hide Inv, RuleCounts, NodeCounts, NodeRules;
    FreeInv(w.(rules := n), Unlink(w.rules, r));
  }

  // A rule that comes with no uses; the id is that of new memory.
  function LoadRule(w: World, r: nat, info: Info): World
    requires r !in w.rules
  {
    w.(rules := w.rules[r := Rule(info, true, 0, 0)])
  }

  lemma LoadInv(w: World, r: nat, info: Info)
    requires Inv(w) && r !in w.rules
    ensures Inv(LoadRule(w, r, info))
  {
    hide HeldBy, Uses, NodesOf, Mentions;
    var rules := LoadRule(w, r, info).rules;
    forall i | i in w.states
      ensures RulesNamed(rules, w.states[i]) && Mentions(w.states[i], r) == 0
    {
      MentionsExist(w.rules, w.states[i], r);
    }
    NotUsed(w.states, r);
    assert NodesOf(w.nodes, r) == {} by { NoNodesOf(w, r); }
  }

  lemma MentionsExist(rules: Rules, s: State, r: nat)
    requires RulesNamed(rules, s) && r !in rules
    ensures Mentions(s, r) == 0
  {
  }

  lemma NoNodesOf(w: World, r: nat)
    requires NodeRules(w.rules, w.nodes) && r !in w.rules
    ensures NodesOf(w.nodes, r) == {}
  {
  }

  lemma NotUsed(m: States, r: nat)
    requires forall i :: i in m ==> Mentions(m[i], r) == 0
    ensures Uses(m, r) == 0
  {
    hide Where;
    NoneWhere(m, (s: State) => s.rule == r);
    NoneWhere(m, (s: State) => s.natRule == Some(r));
    NoneWhere(m, (s: State) => s.anchor == Some(r));
  }

  lemma NoneWhere(m: States, f: State -> bool)
    requires forall i :: i in m ==> !f(m[i])
    ensures Where(m, f) == {}
  {
  }

  // DIOCCLRSRCNODES before it purges: no state holds a node, every node has expired.
  function Cleared(w: World): World {
    World(w.rules, map k | k in w.nodes :: Node(0, 1),
          map i | i in w.states :: w.states[i].(src := None, natSrc := None))
  }

  lemma ClearedInv(w: World)
    requires Inv(w)
    ensures Inv(Cleared(w))
  {
    hide Uses, HeldBy, NodesOf, Mentions;
    var w1 := Cleared(w);
    forall r | r in w1.rules
      ensures Uses(w1.states, r) == Uses(w.states, r) && NodesOf(w1.nodes, r) == NodesOf(w.nodes, r)
    {
      NodesOfSame(w.nodes, w1.nodes, r);
      ClearedUses(w, r);
    }
    forall k | k in w1.nodes
      ensures HeldBy(w1.states, k) == 0
    {
      NotHeld(w1.states, k);
    }
  }

  lemma ClearedUses(w: World, r: nat)
    ensures Uses(Cleared(w).states, r) == Uses(w.states, r)
  {
    hide Where;
    var n := Cleared(w).states;
    SameWhere(w.states, n, (s: State) => s.rule == r);
    SameWhere(w.states, n, (s: State) => s.natRule == Some(r));
    SameWhere(w.states, n, (s: State) => s.anchor == Some(r));
  }

  lemma SameWhere(m: States, n: States, f: State -> bool)
    requires m.Keys == n.Keys && forall i :: i in m ==> f(m[i]) == f(n[i])
    ensures Where(m, f) == Where(n, f)
  {
    assert forall i :: i in m <==> i in n.Keys;
  }

  // ------------------------------------------------------------------------ runs

  datatype Op =
    | Load(r: nat, info: Info)
    | UnlinkOp(r: nat)
    | CreateOp(q: Request)
    | PurgeStateOp(id: nat, now: nat)
    | PurgeNodeOp(k: NodeKey, now: nat)
    | ClearOp

  // A request that names what does not exist changes nothing.
  ghost function Step(w: World, op: Op): World
    requires Inv(w)
  {
    match op
    case Load(r, info) => if r in w.rules then w else LoadRule(w, r, info)
    case UnlinkOp(r) => if r in w.rules then UnlinkRule(w, r) else w
    case CreateOp(q) => if RequestOk(w, q) then Create(w, q).1 else w
    case PurgeStateOp(id, now) => if id in w.states then CountedByInv(w, id); PurgeState(w, id, now) else w
    case PurgeNodeOp(k, now) => if k in w.nodes then NodeRuleCounted(w, k); PurgeNode(w, k, now) else w
    case ClearOp => Cleared(w)
  }

  lemma StepInv(w: World, op: Op)
    requires Inv(w)
    ensures Inv(Step(w, op))
  {
    hide Inv, RequestOk, Create, PurgeState, PurgeNode, RulesCounted, NodesCounted;
    match op
    case Load(r, info) => if r !in w.rules { LoadInv(w, r, info); }
    case UnlinkOp(r) => if r in w.rules { UnlinkInv(w, r); }
    case CreateOp(q) => if RequestOk(w, q) { CreateInv(w, q); }
    case PurgeStateOp(id, now) => if id in w.states { PurgeStateInv(w, id, now); }
    case PurgeNodeOp(k, now) => if k in w.nodes { PurgeNodeInv(w, k, now); }
    case ClearOp => ClearedInv(w);
  }

  /** The counts stay exact over every run of loads, unlinkings, creations that
      succeed or fail anywhere, expiries and clearings: no live state or node ever
      names a rule that has been freed. */
  lemma {:induction false} RunInv(w: World, ops: seq<Op>)
    requires Inv(w)
    ensures Inv(Run(w, ops))
    decreases |ops|
  {
    hide Inv, Step;
    if ops != [] {
      StepInv(w, ops[0]);
      RunInv(Step(w, ops[0]), ops[1..]);
    }
  }

  ghost function Run(w: World, ops: seq<Op>): World
    requires Inv(w)
    decreases |ops|
  {
    if ops == [] then w
    else
      StepInv(w, ops[0]);
      Run(Step(w, ops[0]), ops[1..])
  }

  lemma HoldLingers(w: World, q: Request)
    requires Lingering(w.nodes) && RequestOk(w, q) && FindNodes(w, q).0
    ensures var (_, sn, nsn, w1) := FindNodes(w, q); Lingering(Hold(Hold(w1.nodes, sn), nsn))
  {
    hide FindNodes, RequestOk, MappedNode, Hold;
    RequestFacts(w, q);
    NodesFound(w, q);
    HeldNodes(w, q);
  }

  lemma RemoveLingers(nodes: Nodes, s: State, expire: nat)
    requires Lingering(nodes) && NodesCounted(nodes, s) && expire > 0
    ensures Lingering(RemoveFromNodes(nodes, s, expire))
  {
  }

  /** That unheld nodes wait for their expiry is kept as well. */
  lemma StepLingers(w: World, op: Op)
    requires Inv(w) && Lingering(w.nodes)
    requires op.PurgeStateOp? ==> op.now > 0
    ensures Lingering(Step(w, op).nodes)
  {
    hide Inv, RequestOk, Create, PurgeState, RulesCounted, NodesCounted, Lingering;
    match op
    case CreateOp(q) => if RequestOk(w, q) { CreateLingers(w, q); }
    case PurgeStateOp(id, now) =>
      if id in w.states {
        CountedByInv(w, id);
        PurgeLingers(w, id, now);
      }
    case PurgeNodeOp(k, now) =>
      if k in w.nodes {
        NodeRuleCounted(w, k);
        FewerLinger(w.nodes, PurgeNode(w, k, now).nodes);
      }
    case ClearOp => assert Lingering(Cleared(w).nodes) by { ClearedLingers(w); }
    case _ =>
  }

  lemma ClearedLingers(w: World)
    ensures Lingering(Cleared(w).nodes)
  {
  }

  lemma FewerLinger(n: Nodes, m: Nodes)
    requires Lingering(n) && forall k :: k in m ==> k in n && m[k] == n[k]
    ensures Lingering(m)
  {
  }

  lemma PurgeLingers(w: World, id: nat, now: nat)
    requires Lingering(w.nodes) && now > 0
    requires id in w.states && RulesCounted(w.rules, w.states[id]) && NodesCounted(w.nodes, w.states[id])
    ensures Lingering(PurgeState(w, id, now).nodes)
  {
    hide RemoveFromNodes, Lingering, Release, ReleaseAnchor;
    var s := w.states[id];
    ReleaseThree(w.rules, s);
    RemoveLingers(w.nodes, s, now + w.rules[s.rule].info.timeout);
  }

  lemma CreateLingers(w: World, q: Request)
    requires Lingering(w.nodes) && RequestOk(w, q)
    ensures Lingering(Create(w, q).1.nodes)
  {
    hide FindNodes, RequestOk, Cleanup, Increment, Decrement, Hold, RemoveFromNodes, MappedNode,
      NodeOfTranslation, RulesNamed, NodesNamed, RulesCounted, NodesCounted, Lingering;
    RequestFacts(w, q);
    if AtMax(w, q) {
      RefusalRollsBack(w, q);
    } else {
      var (ok, sn, nsn, w1) := FindNodes(w, q);
      if !(ok && q.stateMemory) {
        RefusalRollsBack(w, q);
      } else {
        var s := StateOf(w1, q, sn, nsn);
        NodesFound(w, q);
        HeldNodes(w, q);
        HoldLingers(w, q);
        if !(q.normalized && q.inserted) {
          GrewRule(w, w1, q.rule);
          SameRulesNamed(w, w1, q, s);
          IncrementDecrement(w1.rules, s);
          RemoveLingers(Hold(Hold(w1.nodes, sn), nsn), s, Expiry(w, q));
        }
      }
    }
  }
}
