/** When a packet gets its state, and what state it gets: in terms of the states there
    are, not of the counters kept about them. */
module RefSuccess {
  import opened Options
  import opened RefCounts

  // The source node of a rule for an address: its own, if the rule tracks by rule or has
  // sticky addresses.
  function NodeFor(info: Info, r: nat, af: nat, addr: nat): NodeKey {
    NodeKey(if info.perRule || info.sticky then Some(r) else None, af, addr)
  }

  /** A source node is there and held by fewer states than `max_src_states`, or is not
      there but can be made: the rule counts fewer nodes than `max_src_nodes`, and there
      is memory. */
  ghost predicate NodeReady(w: World, r: nat, af: nat, addr: nat, memory: bool)
    requires r in w.rules
  {
    var info := w.rules[r].info;
    var k := NodeFor(info, r, af, addr);
    if k in w.nodes then info.maxSrcStates == 0 || HeldBy(w.states, k) < info.maxSrcStates
    else (info.maxSrcNodes == 0 || w.rules[r].srcNodes < info.maxSrcNodes) && memory
  }

  // The states of a filter rule.
  ghost function StatesOf(m: States, r: nat): set<nat> { set i | i in m && m[i].rule == r }

  // For a filter rule the count of uses is the number of its states.
  lemma FilterUses(w: World, r: nat)
    requires Named(w) && RuleIs(w.rules, r, FilterRule)
    ensures Uses(w.states, r) == |StatesOf(w.states, r)|
  {
    var m := w.states;
    forall i | i in m
      ensures m[i].natRule != Some(r) && m[i].anchor != Some(r)
    {
      assert RulesNamed(w.rules, m[i]);
    }
    assert Where(m, (s: State) => s.natRule == Some(r)) == {};
    assert Where(m, (s: State) => s.anchor == Some(r)) == {};
    assert Where(m, (s: State) => s.rule == r) == StatesOf(m, r);
  }

  // One search for a node, as the request's own words put it.
  lemma InsertSucceeds(w: World, sn: Option<NodeKey>, r: nat, af: nat, addr: nat, memory: bool)
    requires NodeCounts(w.nodes, w.states) && r in w.rules
    requires sn == None || (sn == Some(NodeFor(w.rules[r].info, r, af, addr)) && sn.value in w.nodes)
    ensures var (ok, sn1, w1) := InsertSrcNode(w, sn, r, af, addr, memory);
      && (ok <==> NodeReady(w, r, af, addr, memory))
      && (ok ==> sn1 == Some(NodeFor(w.rules[r].info, r, af, addr)) && sn1.value in w1.nodes)
  {
    hide HeldBy;
  }

  // A second search finds the node of the first, and so has the same success.
  lemma InsertAgain(w: World, k: NodeKey, r: nat, af: nat, addr: nat, memory: bool)
    requires r in w.rules && k in w.nodes
    ensures var (ok, sn1, w1) := InsertSrcNode(w, Some(k), r, af, addr, memory);
      && sn1 == Some(k) && w1 == w
      && (ok <==> w.rules[r].info.maxSrcStates == 0 || w.nodes[k].states < w.rules[r].info.maxSrcStates)
  {
  }

  // The search for the filter rule's node leaves the translation rule's as it is.
  lemma FilterLeavesNat(w: World, q: Request, addr: nat, memory: bool)
    requires RequestOk(w, q) && q.natRule.Some? && w.rules[q.natRule.value].info.sticky
    ensures var w1 := FilterNode(w, q).2;
      && q.natRule.value in w1.rules && w1.rules[q.natRule.value] == w.rules[q.natRule.value]
      && w1.states == w.states
      && (NodeReady(w1, q.natRule.value, q.af, addr, memory) <==> NodeReady(w, q.natRule.value, q.af, addr, memory))
  {
    hide HeldBy;
    FilterNodeFacts(w, q);
  }

  // The address the translation rule knows the packet's source by.
  function NatAddr(q: Request): nat { if q.out then q.baddr else q.saddr }

  ghost predicate FilterReady(w: World, q: Request)
    requires q.rule in w.rules
  {
    w.rules[q.rule].info.track || w.rules[q.rule].info.sticky ==>
      NodeReady(w, q.rule, q.af, q.saddr, q.nodeMemory)
  }

  ghost predicate NatReady(w: World, q: Request)
    requires q.natRule.Some? ==> q.natRule.value in w.rules
  {
    q.natRule.Some? && w.rules[q.natRule.value].info.sticky ==>
      NodeReady(w, q.natRule.value, q.af, NatAddr(q), q.natNodeMemory)
  }

  lemma NatSucceeds(w: World, q: Request, w1: World)
    requires Inv(w) && RequestOk(w, q) && FilterNode(w, q).2 == w1 && Inv(w1)
    requires NodeOfTranslation(w, q).Some? ==> NodeOfTranslation(w, q).value in w1.nodes
    ensures q.natRule.Some? ==> q.natRule.value in w1.rules
    ensures var (ok, nsn, w2) := NatNode(w1, q, NodeOfTranslation(w, q));
      && (ok <==> NatReady(w, q))
      && (ok && q.natRule.Some? && w.rules[q.natRule.value].info.sticky ==>
            nsn == Some(NodeFor(w.rules[q.natRule.value].info, q.natRule.value, q.af, NatAddr(q))))
      && (ok && !(q.natRule.Some? && w.rules[q.natRule.value].info.sticky) ==> nsn == NodeOfTranslation(w, q))
  {
    hide Inv, InsertSrcNode, HeldBy, FilterNode, NodeReady, NodeOfTranslation, NodeFor;
    NatRuleThere(w, q);
    hide RequestOk;
    if q.natRule.Some? && w.rules[q.natRule.value].info.sticky {
      var nr, nsn := q.natRule.value, NodeOfTranslation(w, q);
      FilterLeavesNat(w, q, NatAddr(q), q.natNodeMemory);
      NatNodeKey(w, q);
      InvNodes(w1);
      InsertSucceeds(w1, nsn, nr, q.af, NatAddr(q), q.natNodeMemory);
      if q.out {
        var (ok, nsn1, w2) := InsertSrcNode(w1, nsn, nr, q.af, q.baddr, q.natNodeMemory);
        if ok {
          FoundHasRoom(w1, nsn, nr, q.af, q.baddr, q.natNodeMemory);
          InsertAgain(w2, nsn1.value, nr, q.af, q.saddr, q.natNodeMemory);
        }
      }
    }
  }

  lemma NatRuleThere(w: World, q: Request)
    requires RequestOk(w, q)
    ensures q.rule in w.rules && (q.natRule.Some? ==> q.natRule.value in w.rules)
    ensures q.natRule.Some? ==>
      var w1, nr := FilterNode(w, q).2, q.natRule.value; nr in w1.rules && w1.rules[nr].info == w.rules[nr].info
  {
    FilterNodeFacts(w, q);
  }

  lemma NatNodeKey(w: World, q: Request)
    requires RequestOk(w, q) && q.natRule.Some?
    ensures var nsn, nr := NodeOfTranslation(w, q), q.natRule.value;
      nsn == None || nsn == Some(NodeFor(w.rules[nr].info, nr, q.af, NatAddr(q)))
  {
  }

  lemma InvNodes(w: World)
    requires Inv(w)
    ensures NodeCounts(w.nodes, w.states) && Named(w) && RuleCounts(w.rules, w.states)
  {
  }

  // The node found or made has room under the limit of its rule.
  lemma FoundHasRoom(w: World, sn: Option<NodeKey>, r: nat, af: nat, addr: nat, memory: bool)
    requires r in w.rules && (sn.Some? ==> sn.value in w.nodes) && InsertSrcNode(w, sn, r, af, addr, memory).0
    ensures var (_, sn1, w1) := InsertSrcNode(w, sn, r, af, addr, memory);
      && sn1.Some? && r in w1.rules && w1.rules[r].info == w.rules[r].info
      && (w.rules[r].info.maxSrcStates == 0 || w1.nodes[sn1.value].states < w.rules[r].info.maxSrcStates)
  {
  }

  /** A packet gets its state if and only if fewer states name its rule than `max` allows,
      the source nodes that its rules ask for are ready, there is memory, and nothing goes
      wrong when the state is normalized and inserted. */
  lemma CreateSucceedsExactly(w: World, q: Request)
    requires Inv(w) && RequestOk(w, q)
    ensures Create(w, q).0 <==>
      && (w.rules[q.rule].info.maxStates == 0 || |StatesOf(w.states, q.rule)| < w.rules[q.rule].info.maxStates)
      && FilterReady(w, q) && NatReady(w, q)
      && q.stateMemory && q.normalized && q.inserted
  {
    hide Inv, NodeReady, NatNode, FilterNode, InsertSrcNode, Uses, HeldBy, NodeOfTranslation, Cleanup, Hold, Increment,
      Decrement, RemoveFromNodes, StateOf, NodesGrew, RoomLeft;
    InvNodes(w);
    FilterUses(w, q.rule);
    FilterSucceeds(w, q);
    NodesFound(w, q);
    FilterNodeFacts(w, q);
    var (ok, sn, w1) := FilterNode(w, q);
    if ok {
      FilterNodeInv(w, q);
      GrewKeys(w, w1);
      NatSucceeds(w, q, w1);
    }
  }

  lemma FilterNodeInv(w: World, q: Request)
    requires Inv(w) && RequestOk(w, q)
    ensures Inv(FilterNode(w, q).2)
  {
    hide Inv, InsertSrcNode;
    InsertInv(w, None, q.rule, q.af, q.saddr, q.nodeMemory);
  }

  lemma FilterSucceeds(w: World, q: Request)
    requires Inv(w) && RequestOk(w, q)
    ensures FilterNode(w, q).0 <==> FilterReady(w, q)
  {
    hide Inv, InsertSrcNode, NodeReady;
    InvNodes(w);
    InsertSucceeds(w, None, q.rule, q.af, q.saddr, q.nodeMemory);
  }

  // The nodes found, in the request's own words.
  lemma FoundFor(w: World, q: Request)
    requires Inv(w) && RequestOk(w, q) && FindNodes(w, q).0
    ensures var (_, sn, nsn, w1) := FindNodes(w, q);
      var info := w.rules[q.rule].info;
      && sn == (if info.track || info.sticky then Some(NodeFor(info, q.rule, q.af, q.saddr)) else None)
      && (q.natRule.Some? && w.rules[q.natRule.value].info.sticky ==>
            nsn == Some(NodeKey(q.natRule, q.af, if q.out then q.baddr else q.saddr)))
      && (!(q.natRule.Some? && w.rules[q.natRule.value].info.sticky) ==> nsn == Asked(w, q))
  {
    hide Inv, NatNode, FilterNode, NodesGrew;
    RequestFacts(w, q);
    NodesFound(w, q);
    FilterNodeFacts(w, q);
    FilterNodeInv(w, q);
    var w1 := FilterNode(w, q).2;
    GrewKeys(w, w1);
    NatSucceeds(w, q, w1);
  }

  // The node of a pool that was asked without a translation coming of it.
  function Asked(w: World, q: Request): Option<NodeKey>
    requires RequestOk(w, q)
  {
    if q.asked.Some? && q.natRule == None && w.rules[q.asked.value].info.sticky && w.rules[q.asked.value].info.choosing
       && NodeKey(q.asked, q.af, q.saddr) in w.nodes
    then Some(NodeKey(q.asked, q.af, q.saddr)) else None
  }

  /** The state it gets names the packet's three rules and these nodes: the filter rule's
      if it tracks sources; the translation rule's if it is sticky, by the address before
      translation; without translation that of the pool asked in vain, if it is there;
      and if there is none of these, the filter rule's own where it routes by a sticky
      pool. All other states stay. */
  lemma CreatedState(w: World, q: Request)
    requires Inv(w) && RequestOk(w, q) && Create(w, q).0
    ensures var w1 := Create(w, q).1;
      var info := w.rules[q.rule].info;
      var own := Some(NodeFor(info, q.rule, q.af, q.saddr));
      var nsn := if q.natRule.Some? && w.rules[q.natRule.value].info.sticky
                 then Some(NodeKey(q.natRule, q.af, if q.out then q.baddr else q.saddr)) else Asked(w, q);
      var s := State(q.rule, q.natRule, q.anchor, if info.track || info.sticky then own else None,
                     if nsn.Some? then nsn else if info.route && info.sticky && info.choosing then own else None);
      && w1.states == w.states[q.id := s]
      && (forall k :: k in w1.nodes <==> k in w.nodes || s.src == Some(k) || s.natSrc == Some(k))
  {
    hide Inv, NodeReady, NatNode, FilterNode, InsertSrcNode, Uses, HeldBy, Cleanup, Hold, Increment,
      Decrement, RemoveFromNodes, RoomLeft, NodesGrew, RulesNamed;
    RequestFacts(w, q);
    FoundFor(w, q);
    hide FindNodes, NodeOfTranslation;
    HeldNodes(w, q);
    NodesFound(w, q);
    var (_, sn, nsn, w2) := FindNodes(w, q);
    GrewKeys(w, w2);
  }

}
