/** Reference counts: rules are used by states and source nodes, source nodes by
    states. Creation of a state with all its ways to fail, expiry, and the freeing
    of rules that have left their lists. */
module RefCounts {
  import opened Options

  datatype Kind = FilterRule | AnchorRule | TranslationRule

  /** What does not change in a rule. `track` is PFRULE_SRCTRACK, `perRule`
      PFRULE_RULESRCTRACK, `route` any route option but fastroute, `choosing` a pool
      of any type but PF_POOL_NONE. A maximum of 0 is none. */
  datatype Info = Info(
    kind: Kind, track: bool, perRule: bool, sticky: bool, route: bool, choosing: bool,
    maxStates: nat, maxSrcStates: nat, maxSrcNodes: nat, timeout: nat)

  datatype Rule = Rule(info: Info, linked: bool, states: nat, srcNodes: nat)

  datatype NodeKey = NodeKey(rule: Option<nat>, af: nat, addr: nat)

  datatype Node = Node(states: nat, expire: nat)

  datatype State = State(
    rule: nat, natRule: Option<nat>, anchor: Option<nat>, src: Option<NodeKey>, natSrc: Option<NodeKey>)

  type Rules = map<nat, Rule>
  type Nodes = map<NodeKey, Node>
  type States = map<nat, State>

  datatype World = World(rules: Rules, nodes: Nodes, states: States)

  // -------------------------------------------------------------------- counting

  ghost function Where(m: States, f: State -> bool): set<nat> { set i | i in m && f(m[i]) }

  function Bit(b: bool): nat { if b then 1 else 0 }

  // How often a state names a rule, and how often all of them do.
  function Mentions(s: State, r: nat): nat {
    Bit(s.rule == r) + Bit(s.natRule == Some(r)) + Bit(s.anchor == Some(r))
  }

  ghost function Uses(m: States, r: nat): nat {
    |Where(m, (s: State) => s.rule == r)| + |Where(m, (s: State) => s.natRule == Some(r))|
    + |Where(m, (s: State) => s.anchor == Some(r))|
  }

  // A state holds a node once, even as both of its nodes.
  predicate Holds(s: State, k: NodeKey) { s.src == Some(k) || s.natSrc == Some(k) }

  ghost function HeldBy(m: States, k: NodeKey): nat { |Where(m, (s: State) => Holds(s, k))| }

  ghost function NodesOf(n: Nodes, r: nat): set<NodeKey> { set k | k in n && k.rule == Some(r) }

  lemma WhereAdd(m: States, i: nat, s: State, f: State -> bool)
    requires i !in m
    ensures |Where(m[i := s], f)| == |Where(m, f)| + Bit(f(s))
  {
    assert Where(m[i := s], f) == if f(s) then Where(m, f) + {i} else Where(m, f);
  }

  lemma WhereRemove(m: States, i: nat, f: State -> bool)
    requires i in m
    ensures |Where(m, f)| == |Where(m - {i}, f)| + Bit(f(m[i]))
  {
    WhereAdd(m - {i}, i, m[i], f);
    assert (m - {i})[i := m[i]] == m;
  }

  lemma UsesAdd(m: States, i: nat, s: State, r: nat)
    requires i !in m
    ensures Uses(m[i := s], r) == Uses(m, r) + Mentions(s, r)
  {
    WhereAdd(m, i, s, (s: State) => s.rule == r);
    WhereAdd(m, i, s, (s: State) => s.natRule == Some(r));
    WhereAdd(m, i, s, (s: State) => s.anchor == Some(r));
  }

  lemma UsesRemove(m: States, i: nat, r: nat)
    requires i in m
    ensures Uses(m, r) == Uses(m - {i}, r) + Mentions(m[i], r)
  {
    UsesAdd(m - {i}, i, m[i], r);
    assert (m - {i})[i := m[i]] == m;
  }

  lemma HeldAdd(m: States, i: nat, s: State, k: NodeKey)
    requires i !in m
    ensures HeldBy(m[i := s], k) == HeldBy(m, k) + Bit(Holds(s, k))
  {
    WhereAdd(m, i, s, (s: State) => Holds(s, k));
  }

  lemma HeldRemove(m: States, i: nat, k: NodeKey)
    requires i in m
    ensures HeldBy(m, k) == HeldBy(m - {i}, k) + Bit(Holds(m[i], k))
  {
    WhereRemove(m, i, (s: State) => Holds(s, k));
  }

  // ------------------------------------------------------------------- invariant

  ghost predicate RuleCounts(rules: Rules, states: States) {
    forall r :: r in rules ==> rules[r].states == Uses(states, r)
  }

  ghost predicate NodeCounts(nodes: Nodes, states: States) {
    forall k :: k in nodes ==> nodes[k].states == HeldBy(states, k)
  }

  // `src_nodes` is an upper bound, and nodes name rules that exist.
  ghost predicate NodeRules(rules: Rules, nodes: Nodes) {
    && (forall r :: r in rules ==> |NodesOf(nodes, r)| <= rules[r].srcNodes)
    && (forall k :: k in nodes && k.rule.Some? ==> k.rule.value in rules)
  }

  predicate RuleIs(rules: Rules, r: nat, kind: Kind) { r in rules && rules[r].info.kind == kind }

  predicate RulesNamed(rules: Rules, s: State) {
    && RuleIs(rules, s.rule, FilterRule)
    && (s.natRule.Some? ==> RuleIs(rules, s.natRule.value, TranslationRule))
    && (s.anchor.Some? ==> RuleIs(rules, s.anchor.value, AnchorRule))
  }

  predicate NodesNamed(nodes: Nodes, s: State) {
    (s.src.Some? ==> s.src.value in nodes) && (s.natSrc.Some? ==> s.natSrc.value in nodes)
  }

  ghost predicate Named(w: World) {
    forall i :: i in w.states ==> RulesNamed(w.rules, w.states[i]) && NodesNamed(w.nodes, w.states[i])
  }

  ghost predicate WithinMax(rules: Rules) {
    forall r :: r in rules && rules[r].info.kind.FilterRule? && rules[r].info.maxStates > 0 ==>
      rules[r].states <= rules[r].info.maxStates
  }

  ghost predicate WithinMaxNodes(rules: Rules) {
    forall r :: r in rules && rules[r].info.maxSrcNodes > 0 ==> rules[r].srcNodes <= rules[r].info.maxSrcNodes
  }

  /** Each rule's `states` is the number of times live states name it; each node's is
      the number of live states that hold it; live states and nodes name rules and
      nodes that exist; no filter rule is above its maximum of states and no rule
      above its maximum of nodes. */
  ghost predicate Inv(w: World) {
    && RuleCounts(w.rules, w.states) && NodeCounts(w.nodes, w.states)
    && NodeRules(w.rules, w.nodes) && Named(w) && WithinMax(w.rules) && WithinMaxNodes(w.rules)
  }

  // The limit on states of the rule a node belongs to.
  predicate NodeWithin(rules: Rules, k: NodeKey, states: nat) {
    k.rule.Some? && k.rule.value in rules && rules[k.rule.value].info.maxSrcStates > 0 ==>
      states <= rules[k.rule.value].info.maxSrcStates
  }

  // No node is above it. Creation does not always keep this.
  ghost predicate WithinSrcStates(w: World) {
    forall k :: k in w.nodes ==> NodeWithin(w.rules, k, w.nodes[k].states)
  }

  // ----------------------------------------------------------------- rules go away

  // pf_rm_rule without a queue. The ruleset that a freed rule calls is let go in
  // Rulesets.RmRule, to which "in use" is a set of rules.
  function RmRule(rules: Rules, r: nat): Rules
    requires r in rules
  {
    if rules[r].states > 0 || rules[r].srcNodes > 0 || rules[r].linked then rules else rules - {r}
  }

  // pf_rm_rule with the rule's queue.
  function Unlink(rules: Rules, r: nat): Rules
    requires r in rules
  {
    RmRule(rules[r := rules[r].(linked := false)], r)
  }

  // `if (--rule->states <= 0 && rule->src_nodes <= 0) pf_rm_rule(NULL, rule)`
  function Release(rules: Rules, r: nat): Rules
    requires r in rules && rules[r].states > 0
  {
    var n := rules[r := rules[r].(states := rules[r].states - 1)];
    if n[r].states == 0 && n[r].srcNodes == 0 then RmRule(n, r) else n
  }

  // -------------------------------------------------------------- counters of states

  function Add(rules: Rules, r: nat, n: int): Rules
    requires r in rules && rules[r].states + n >= 0
  {
    rules[r := rules[r].(states := rules[r].states + n)]
  }

  // STATE_INC_COUNTERS
  function Increment(rules: Rules, s: State): (n: Rules)
    requires RulesNamed(rules, s)
  {
    var n1 := Add(rules, s.rule, 1);
    var n2 := if s.anchor.Some? then Add(n1, s.anchor.value, 1) else n1;
    if s.natRule.Some? then Add(n2, s.natRule.value, 1) else n2
  }

  lemma IncrementCounts(rules: Rules, s: State)
    requires RulesNamed(rules, s)
    ensures var n := Increment(rules, s);
            && n.Keys == rules.Keys
            && forall r :: r in rules ==> n[r] == rules[r].(states := rules[r].states + Mentions(s, r))
  {
  }

  predicate RulesCounted(rules: Rules, s: State) {
    && RulesNamed(rules, s) && rules[s.rule].states > 0
    && (s.natRule.Some? ==> rules[s.natRule.value].states > 0)
    && (s.anchor.Some? ==> rules[s.anchor.value].states > 0)
  }

  // STATE_DEC_COUNTERS
  function Decrement(rules: Rules, s: State): Rules
    requires RulesCounted(rules, s)
  {
    var n1 := if s.natRule.Some? then Add(rules, s.natRule.value, -1) else rules;
    var n2 := if s.anchor.Some? then Add(n1, s.anchor.value, -1) else n1;
    Add(n2, s.rule, -1)
  }

  lemma IncrementDecrement(rules: Rules, s: State)
    requires RulesNamed(rules, s)
    ensures RulesCounted(Increment(rules, s), s)
    ensures Decrement(Increment(rules, s), s) == rules
  {
    IncrementCounts(rules, s);
  }

  // ------------------------------------------------------------------ source nodes

  function KeyFor(rules: Rules, r: nat, af: nat, addr: nat): NodeKey
    requires r in rules
  {
    NodeKey(if rules[r].info.perRule || rules[r].info.sticky then Some(r) else None, af, addr)
  }

  /** pf_insert_src_node: finds or makes the node of an address for a rule. The node
      found is returned also when its states are at the maximum. */
  function InsertSrcNode(w: World, sn: Option<NodeKey>, r: nat, af: nat, addr: nat, memory: bool)
      : (ret: (bool, Option<NodeKey>, World))
    requires r in w.rules && (sn.Some? ==> sn.value in w.nodes)
    ensures ret.1.Some? ==> ret.1.value in ret.2.nodes
    ensures ret.2.states == w.states && ret.2.rules.Keys == w.rules.Keys
  {
    var k := KeyFor(w.rules, r, af, addr);
    var found := if sn.Some? then sn else if k in w.nodes then Some(k) else None;
    var rule := w.rules[r];
    if found.Some? then
      (!(rule.info.maxSrcStates > 0 && w.nodes[found.value].states >= rule.info.maxSrcStates), found, w)
    else if (rule.info.maxSrcNodes == 0 || rule.srcNodes < rule.info.maxSrcNodes) && memory then
      var rules := if k.rule.Some? then w.rules[r := rule.(srcNodes := rule.srcNodes + 1)] else w.rules;
      (true, Some(k), w.(nodes := w.nodes[k := Node(0, 0)], rules := rules))
    else (false, None, w)
  }

  // One node of the `cleanup` code: gone if this creation made it.
  function Discard(nodes: Nodes, sn: Option<NodeKey>): Nodes
    requires sn.Some? ==> sn.value in nodes
  {
    if sn.Some? && nodes[sn.value].states == 0 && nodes[sn.value].expire == 0 then nodes - {sn.value} else nodes
  }

  function Cleanup(w: World, sn: Option<NodeKey>, nsn: Option<NodeKey>): World
    requires (sn.Some? ==> sn.value in w.nodes) && (nsn.Some? ==> nsn.value in w.nodes)
  {
    var n1 := Discard(w.nodes, sn);
    w.(nodes := if nsn != sn then Discard(n1, nsn) else n1)
  }

  function Hold(nodes: Nodes, k: Option<NodeKey>): (n: Nodes)
    requires k.Some? ==> k.value in nodes
    ensures n.Keys == nodes.Keys
  {
    if k.Some? then nodes[k.value := nodes[k.value].(states := nodes[k.value].states + 1)] else nodes
  }

  // A node loses a state; the last one starts its expiry.
  function Drop(nodes: Nodes, k: Option<NodeKey>, expire: nat): Nodes
    requires k.Some? ==> k.value in nodes && nodes[k.value].states > 0
  {
    if k.None? then nodes
    else
      var n := nodes[k.value].states - 1;
      nodes[k.value := Node(n, if n == 0 then expire else nodes[k.value].expire)]
  }

  /** A node still held keeps its expiry; one no longer held gets the one given. */
  lemma DropExactly(nodes: Nodes, k: NodeKey, expire: nat)
    requires k in nodes && nodes[k].states > 0
    ensures Drop(nodes, Some(k), expire) == nodes[k :=
      if nodes[k].states == 1 then Node(0, expire) else Node(nodes[k].states - 1, nodes[k].expire)]
  {
  }

  predicate NodesCounted(nodes: Nodes, s: State) {
    && (s.src.Some? ==> s.src.value in nodes && nodes[s.src.value].states > 0)
    && (s.natSrc.Some? ==> s.natSrc.value in nodes && nodes[s.natSrc.value].states > 0)
  }

  // pf_src_tree_remove_state
  function RemoveFromNodes(nodes: Nodes, s: State, expire: nat): Nodes
    requires NodesCounted(nodes, s)
  {
    var n := Drop(nodes, s.src, expire);
    if s.natSrc != s.src then Drop(n, s.natSrc, expire) else n
  }

  lemma RemoveFromNodesCounts(nodes: Nodes, s: State, expire: nat)
    requires NodesCounted(nodes, s)
    ensures var n := RemoveFromNodes(nodes, s, expire);
            && n.Keys == nodes.Keys
            && forall k :: k in nodes ==> n[k].states == nodes[k].states - Bit(Holds(s, k))
  {
  }

  // ---------------------------------------------------------------------- creation

  /** A packet about to leave a state: the rules that matched; the translation rule
      whose pool was asked for an address, even if no port was found then and there is
      no translation; the source after and before translation; the time; and what goes
      wrong on the way. */
  datatype Request = Request(
    id: nat, rule: nat, natRule: Option<nat>, anchor: Option<nat>, asked: Option<nat>, out: bool,
    af: nat, saddr: nat, baddr: nat, now: nat,
    nodeMemory: bool, natNodeMemory: bool, stateMemory: bool, normalized: bool, inserted: bool)

  // The node pf_map_addr finds for a rule with sticky addresses.
  function MappedNode(w: World, r: nat, af: nat, addr: nat): Option<NodeKey>
    requires r in w.rules
  {
    var k := KeyFor(w.rules, r, af, addr);
    if w.rules[r].info.sticky && w.rules[r].info.choosing && k in w.nodes then Some(k) else None
  }

  predicate RequestOk(w: World, q: Request) {
    && q.id !in w.states && q.now > 0
    && RulesNamed(w.rules, State(q.rule, q.natRule, q.anchor, None, None))
    && (q.asked.Some? ==> RuleIs(w.rules, q.asked.value, TranslationRule) && (q.natRule.Some? ==> q.natRule == q.asked))
  }

  // The translation rule a node found for the request can belong to.
  function Owner(q: Request): Option<nat> { if q.natRule.Some? then q.natRule else q.asked }

  // When a node that this request leaves unused expires.
  function Expiry(w: World, q: Request): nat
    requires q.rule in w.rules
  {
    q.now + w.rules[q.rule].info.timeout
  }

  /** The node translation has found before the state is made. It is found for the
      source before translation, and stays found when pf_get_sport fails. */
  function NodeOfTranslation(w: World, q: Request): (r: Option<NodeKey>)
    requires RequestOk(w, q)
    ensures r.Some? ==> r.value in w.nodes
  {
    if q.asked.None? then None
    else MappedNode(w, q.asked.value, q.af, if q.out && q.natRule.Some? then q.baddr else q.saddr)
  }

  // The source node of the filter rule, if it tracks sources.
  function FilterNode(w: World, q: Request): (ret: (bool, Option<NodeKey>, World))
    requires q.rule in w.rules
    ensures ret.1.Some? ==> ret.1.value in ret.2.nodes
    ensures ret.2.states == w.states && ret.2.rules.Keys == w.rules.Keys
  {
    if w.rules[q.rule].info.track || w.rules[q.rule].info.sticky
    then InsertSrcNode(w, None, q.rule, q.af, q.saddr, q.nodeMemory)
    else (true, None, w)
  }

  // That of the translation rule, if it is sticky; twice for outbound packets.
  function NatNode(w: World, q: Request, nsn: Option<NodeKey>): (ret: (bool, Option<NodeKey>, World))
    requires (q.natRule.Some? ==> q.natRule.value in w.rules) && (nsn.Some? ==> nsn.value in w.nodes)
    ensures ret.1.Some? ==> ret.1.value in ret.2.nodes
    ensures ret.2.states == w.states && ret.2.rules.Keys == w.rules.Keys
  {
    if q.natRule.None? || !w.rules[q.natRule.value].info.sticky then (true, nsn, w)
    else
      var nr := q.natRule.value;
      var (ok, nsn1, w1) := if q.out then InsertSrcNode(w, nsn, nr, q.af, q.baddr, q.natNodeMemory) else (true, nsn, w);
      if !ok then (false, nsn1, w1) else InsertSrcNode(w1, nsn1, nr, q.af, q.saddr, q.natNodeMemory)
  }

  /** The source nodes of a new state. */
  function FindNodes(w: World, q: Request): (ret: (bool, Option<NodeKey>, Option<NodeKey>, World))
    requires RequestOk(w, q)
    ensures ret.1.Some? ==> ret.1.value in ret.3.nodes
    ensures ret.2.Some? ==> ret.2.value in ret.3.nodes
    ensures ret.3.states == w.states && ret.3.rules.Keys == w.rules.Keys
  {
    var (ok, sn, w1) := FilterNode(w, q);
    FilterNodeFacts(w, q);
    var nsn := NodeOfTranslation(w, q);
    if !ok then (false, sn, nsn, w1)
    else
      NatNodeFacts(w1, q, nsn);
      var (ok2, nsn2, w2) := NatNode(w1, q, nsn);
      (ok2, sn, nsn2, w2)
  }

  // Insertion removes no node, and changes no rule but in `src_nodes`.
  ghost predicate NodesGrew(w: World, w1: World) {
    && w1.states == w.states && w1.rules.Keys == w.rules.Keys && w.nodes.Keys <= w1.nodes.Keys
    && (forall k :: k in w.nodes ==> k in w1.nodes && w1.nodes[k] == w.nodes[k])
    && (forall k :: k in w1.nodes && k !in w.nodes ==> w1.nodes[k] == Node(0, 0))
    && (forall r :: r in w.rules ==> w1.rules[r] == w.rules[r].(srcNodes := w1.rules[r].srcNodes))
  }

  lemma InsertKeeps(w: World, sn: Option<NodeKey>, r: nat, af: nat, addr: nat, memory: bool)
    requires r in w.rules && (sn.Some? ==> sn.value in w.nodes)
    ensures NodesGrew(w, InsertSrcNode(w, sn, r, af, addr, memory).2)
  {
  }

  lemma GrewRefl(w: World)
    ensures NodesGrew(w, w)
  {
  }

  lemma GrewKeys(w: World, w1: World)
    requires NodesGrew(w, w1)
    ensures w.nodes.Keys <= w1.nodes.Keys && w1.rules.Keys == w.rules.Keys && w1.states == w.states
    ensures forall r :: r in w.rules ==> w1.rules[r].info == w.rules[r].info
  {
  }

  lemma GrewTrans(a: World, b: World, c: World)
    requires NodesGrew(a, b) && NodesGrew(b, c)
    ensures NodesGrew(a, c)
  {
  }

  lemma FilterNodeFacts(w: World, q: Request)
    requires q.rule in w.rules
    ensures var (ok, sn, w1) := FilterNode(w, q);
            && NodesGrew(w, w1)
            && (forall k :: k in w1.nodes && k !in w.nodes ==> sn == Some(k))
            && (ok ==> sn == if w.rules[q.rule].info.track || w.rules[q.rule].info.sticky
                             then Some(KeyFor(w.rules, q.rule, q.af, q.saddr)) else None)
            && (ok ==> RoomLeft(w1, sn))
  {
    hide NodesGrew, InsertSrcNode;
    GrewRefl(w);
    InsertKey(w, None, q.rule, q.af, q.saddr, q.nodeMemory);
    InsertKeeps(w, None, q.rule, q.af, q.saddr, q.nodeMemory);
  }

  lemma NatNodeFacts(w: World, q: Request, nsn: Option<NodeKey>)
    requires (q.natRule.Some? ==> q.natRule.value in w.rules) && (nsn.Some? ==> nsn.value in w.nodes)
    requires nsn.Some? ==> Owner(q).Some? && nsn.value.rule == Owner(q)
    requires nsn.Some? ==> Owner(q).value in w.rules && w.rules[Owner(q).value].info.sticky
    ensures var (ok, nsn1, w1) := NatNode(w, q, nsn);
            && NodesGrew(w, w1) && (ok && q.natRule.Some? ==> RoomLeft(w1, nsn1))
            && (q.natRule.None? ==> nsn1 == nsn && w1 == w)
            && (forall k :: k in w1.nodes && k !in w.nodes ==> nsn1 == Some(k))
            && (nsn1.Some? ==> Owner(q).Some? && nsn1.value.rule == Owner(q))
  {
    hide NodesGrew, InsertSrcNode;
    GrewRefl(w);
    if q.natRule.Some? && w.rules[q.natRule.value].info.sticky {
      var nr := q.natRule.value;
      if q.out {
        var (ok, nsn1, w1) := InsertSrcNode(w, nsn, nr, q.af, q.baddr, q.natNodeMemory);
        NatInsert(w, q, nsn, q.baddr);
        GrewKeys(w, w1);
        if ok {
          NatInsert(w1, q, nsn1, q.saddr);
          GrewTrans(w, w1, InsertSrcNode(w1, nsn1, nr, q.af, q.saddr, q.natNodeMemory).2);
        }
      } else {
        NatInsert(w, q, nsn, q.saddr);
      }
    }
  }

  // One insertion for the translation rule.
  lemma NatInsert(w: World, q: Request, nsn: Option<NodeKey>, addr: nat)
    requires q.natRule.Some? && q.natRule.value in w.rules && w.rules[q.natRule.value].info.sticky
    requires nsn.Some? ==> nsn.value in w.nodes && nsn.value.rule == q.natRule
    ensures var (ok, nsn1, w1) := InsertSrcNode(w, nsn, q.natRule.value, q.af, addr, q.natNodeMemory);
            && NodesGrew(w, w1)
            && (nsn1.Some? ==> nsn1.value.rule == q.natRule) && (nsn.Some? ==> nsn1 == nsn) && (ok ==> nsn1.Some?)
            && (ok ==> RoomLeft(w1, nsn1))
            && (forall k :: k in w1.nodes && k !in w.nodes ==> nsn.None? && nsn1 == Some(k))
  {
    hide NodesGrew, InsertSrcNode;
    InsertKey(w, nsn, q.natRule.value, q.af, addr, q.natNodeMemory);
    InsertKeeps(w, nsn, q.natRule.value, q.af, addr, q.natNodeMemory);
  }

  lemma RoomStays(w: World, w1: World, k: Option<NodeKey>)
    requires NodesGrew(w, w1) && RoomLeft(w, k)
    ensures RoomLeft(w1, k)
  {
  }

  lemma TranslationNodeNamed(w: World, q: Request)
    requires RequestOk(w, q)
    ensures var nsn := NodeOfTranslation(w, q);
            nsn.Some? ==>
              && Owner(q).Some? && nsn.value.rule == Owner(q)
              && Owner(q).value in w.rules && w.rules[Owner(q).value].info.sticky
  {
  }

  /** The nodes found: the filter rule's, if it tracks sources at all, and one that
      names the translation rule -- or, without translation, the rule whose pool was
      asked in vain. No node is lost, and none made but these. Both rules have room for
      one more state, but not so the rule asked in vain. */
  lemma NodesFound(w: World, q: Request)
    requires RequestOk(w, q)
    ensures var (ok, sn, nsn, w1) := FindNodes(w, q);
            && NodesGrew(w, w1)
            && (ok ==> sn == if w.rules[q.rule].info.track || w.rules[q.rule].info.sticky
                             then Some(KeyFor(w.rules, q.rule, q.af, q.saddr)) else None)
            && (nsn.Some? ==> Owner(q).Some? && nsn.value.rule == Owner(q))
            && (forall k :: k in w1.nodes && k !in w.nodes ==> sn == Some(k) || nsn == Some(k))
            && (ok ==> RoomLeft(w1, sn) && (q.natRule.Some? ==> RoomLeft(w1, nsn)))
            && (q.natRule.None? ==> nsn == NodeOfTranslation(w, q))
  {
    hide NodesGrew, FilterNode, NatNode, MappedNode, RoomLeft;
    FilterNodeFacts(w, q);
    var (ok, sn, w1) := FilterNode(w, q);
    GrewKeys(w, w1);
    TranslationNodeNamed(w, q);
    if ok {
      NatNodeFacts(w1, q, NodeOfTranslation(w, q));
      GrewTrans(w, w1, NatNode(w1, q, NodeOfTranslation(w, q)).2);
      RoomStays(w1, NatNode(w1, q, NodeOfTranslation(w, q)).2, sn);
    }
  }

  // A node found may take one state more.
  predicate RoomLeft(w: World, k: Option<NodeKey>) {
    k.Some? ==> k.value in w.nodes && NodeWithin(w.rules, k.value, w.nodes[k.value].states + 1)
  }

  lemma InsertKey(w: World, sn: Option<NodeKey>, r: nat, af: nat, addr: nat, memory: bool)
    requires r in w.rules && (sn.Some? ==> sn.value in w.nodes)
    ensures var (ok, sn1, w1) := InsertSrcNode(w, sn, r, af, addr, memory);
            && (sn.Some? ==> sn1 == sn)
            && (forall k :: k in w1.nodes && k !in w.nodes ==> sn.None? && sn1 == Some(k))
            && (sn.None? && sn1.Some? ==> sn1.value == KeyFor(w.rules, r, af, addr))
            && (ok ==> sn1.Some?)
            && (w.rules[r].info.sticky && sn.None? && sn1.Some? ==> sn1.value.rule == Some(r))
            && (ok && (sn1.value.rule.Some? ==> sn1.value.rule == Some(r)) ==> RoomLeft(w1, sn1))
  {
  }

  // The state of a request, with the node that pf_set_rt_ifp finds when translation
  // has none.
  function StateOf(w: World, q: Request, sn: Option<NodeKey>, nsn: Option<NodeKey>): State
    requires q.rule in w.rules
  {
    var routed := if w.rules[q.rule].info.route then MappedNode(w, q.rule, q.af, q.saddr) else None;
    State(q.rule, q.natRule, q.anchor, sn, if nsn.Some? then nsn else routed)
  }

  predicate AtMax(w: World, q: Request)
    requires q.rule in w.rules
  {
    w.rules[q.rule].info.maxStates > 0 && w.rules[q.rule].states >= w.rules[q.rule].info.maxStates
  }

  /** What pf_test_tcp, pf_test_udp, pf_test_icmp and pf_test_other do to the counters
      when a packet is to leave a state. */
  function Create(w: World, q: Request): (bool, World)
    requires RequestOk(w, q)
  {
    NodesFound(w, q);
    if AtMax(w, q) then
      (false, Cleanup(w, None, NodeOfTranslation(w, q)))
    else
      var (ok, sn, nsn, w1) := FindNodes(w, q);
      if !ok || !q.stateMemory then (false, Cleanup(w1, sn, nsn))
      else
        var s := StateOf(w1, q, sn, nsn);
        var rules, nodes := Increment(w1.rules, s), Hold(Hold(w1.nodes, sn), nsn);
        if q.normalized && q.inserted then (true, World(rules, nodes, w1.states[q.id := s]))
        else
          IncrementDecrement(w1.rules, s);
          HeldNodes(w, q);
          (false, World(Decrement(rules, s), RemoveFromNodes(nodes, s, Expiry(w, q)), w1.states))
  }

  // A new state's nodes are counted once each.
  lemma HeldNodes(w: World, q: Request)
    requires RequestOk(w, q) && FindNodes(w, q).0
    ensures var (_, sn, nsn, w1) := FindNodes(w, q);
            && q.rule in w1.rules
            && var s, nodes := StateOf(w1, q, sn, nsn), Hold(Hold(w1.nodes, sn), nsn);
            && NodesNamed(w1.nodes, s) && NodesCounted(nodes, s)
            && nodes.Keys == w1.nodes.Keys
            && (forall k :: Holds(s, k) <==> sn == Some(k) || nsn == Some(k))
            && forall k :: k in nodes ==> nodes[k] == w1.nodes[k].(states := w1.nodes[k].states + Bit(Holds(s, k)))
  {
    hide FindNodes, NodesGrew;
    var (_, sn, nsn, w1) := FindNodes(w, q);
    NodesFound(w, q);
    GrewKeys(w, w1);
    assert RuleIs(w.rules, q.rule, FilterRule);
    assert nsn.Some? ==> nsn != sn;
  }

  // -------------------------------------------------------- creation keeps the counts

  lemma NotHeld(m: States, k: NodeKey)
    ensures HeldBy(m, k) == 0 <==> forall i :: i in m ==> !Holds(m[i], k)
  {
    var h := Where(m, (s: State) => Holds(s, k));
    if HeldBy(m, k) == 0 {
      forall i | i in m
        ensures !Holds(m[i], k)
      {
        assert i !in h;
      }
    } else {
      assert h != {};
      var i :| i in h;
    }
  }

  lemma NodesOfAdd(n: Nodes, k: NodeKey, v: Node, r: nat)
    requires k !in n
    ensures |NodesOf(n[k := v], r)| == |NodesOf(n, r)| + Bit(k.rule == Some(r))
  {
    assert NodesOf(n[k := v], r) == if k.rule == Some(r) then NodesOf(n, r) + {k} else NodesOf(n, r);
  }

  lemma NodesOfRemove(n: Nodes, k: NodeKey, r: nat)
    requires k in n
    ensures |NodesOf(n, r)| == |NodesOf(n - {k}, r)| + Bit(k.rule == Some(r))
  {
    NodesOfAdd(n - {k}, k, n[k], r);
    assert (n - {k})[k := n[k]] == n;
  }

  lemma NodesOfSame(n: Nodes, m: Nodes, r: nat)
    requires n.Keys == m.Keys
    ensures NodesOf(n, r) == NodesOf(m, r)
  {
    assert forall k :: k in n <==> k in m.Keys;
  }

  // Names stay good while rules keep their kinds and no node goes.
  lemma NamedStays(w: World, rules: Rules, nodes: Nodes)
    requires Named(w) && w.nodes.Keys <= nodes.Keys
    requires rules.Keys == w.rules.Keys && forall r :: r in rules ==> rules[r].info == w.rules[r].info
    ensures Named(World(rules, nodes, w.states))
  {
    var w1 := World(rules, nodes, w.states);
    forall i | i in w.states
      ensures RulesNamed(rules, w.states[i]) && NodesNamed(nodes, w.states[i])
    {
      assert RulesNamed(w.rules, w.states[i]) && NodesNamed(w.nodes, w.states[i]);
    }
  }

  lemma NewNodeNotHeld(w: World, k: NodeKey)
    requires Named(w) && k !in w.nodes
    ensures HeldBy(w.states, k) == 0
  {
    hide HeldBy;
    NotHeld(w.states, k);
  }

  lemma InsertInv(w: World, sn: Option<NodeKey>, r: nat, af: nat, addr: nat, memory: bool)
    requires Inv(w) && r in w.rules && (sn.Some? ==> sn.value in w.nodes)
    ensures Inv(InsertSrcNode(w, sn, r, af, addr, memory).2)
  {
    hide HeldBy, Uses, NodesOf, Named;
    var k := KeyFor(w.rules, r, af, addr);
    var w1 := InsertSrcNode(w, sn, r, af, addr, memory).2;
    NamedStays(w, w1.rules, w1.nodes);
    if k !in w.nodes && k in w1.nodes {
      NewNodeNotHeld(w, k);
      forall q | q in w1.rules
        ensures |NodesOf(w1.nodes, q)| <= w1.rules[q].srcNodes
      {
        NodesOfAdd(w.nodes, k, Node(0, 0), q);
      }
    }
  }

  lemma NatNodeInv(w: World, q: Request, nsn: Option<NodeKey>)
    requires Inv(w)
    requires (q.natRule.Some? ==> q.natRule.value in w.rules) && (nsn.Some? ==> nsn.value in w.nodes)
    ensures Inv(NatNode(w, q, nsn).2)
  {
    hide Inv, NodesGrew, InsertSrcNode;
    if q.natRule.Some? && w.rules[q.natRule.value].info.sticky {
      var nr := q.natRule.value;
      InsertInv(w, nsn, nr, q.af, q.baddr, q.natNodeMemory);
      var (ok, nsn1, w1) := if q.out then InsertSrcNode(w, nsn, nr, q.af, q.baddr, q.natNodeMemory) else (true, nsn, w);
      if ok {
        InsertInv(w1, nsn1, nr, q.af, q.saddr, q.natNodeMemory);
      }
    }
  }

  lemma FindNodesInv(w: World, q: Request)
    requires Inv(w) && RequestOk(w, q)
    ensures Inv(FindNodes(w, q).3)
  {
    hide Inv, NodesGrew, InsertSrcNode, NatNode;
    FilterNodeFacts(w, q);
    InsertInv(w, None, q.rule, q.af, q.saddr, q.nodeMemory);
    var (ok, _, w1) := FilterNode(w, q);
    GrewKeys(w, w1);
    if ok {
      NatNodeInv(w1, q, NodeOfTranslation(w, q));
    }
  }

  lemma DiscardInv(w: World, k: Option<NodeKey>)
    requires Inv(w) && (k.Some? ==> k.value in w.nodes)
    ensures Inv(w.(nodes := Discard(w.nodes, k)))
    ensures forall j :: j in w.nodes && Some(j) != k ==> j in Discard(w.nodes, k)
  {
    hide HeldBy, Uses, NodesOf;
    var n := Discard(w.nodes, k);
    if k.Some? && k.value !in n {
      NotHeld(w.states, k.value);
      forall r | r in w.rules
        ensures |NodesOf(n, r)| <= w.rules[r].srcNodes
      {
        NodesOfRemove(w.nodes, k.value, r);
      }
    }
  }

  lemma CleanupInv(w: World, sn: Option<NodeKey>, nsn: Option<NodeKey>)
    requires Inv(w) && (sn.Some? ==> sn.value in w.nodes) && (nsn.Some? ==> nsn.value in w.nodes)
    ensures Inv(Cleanup(w, sn, nsn))
  {
    hide Inv, Discard;
    DiscardInv(w, sn);
    if nsn != sn {
      DiscardInv(w.(nodes := Discard(w.nodes, sn)), nsn);
    }
  }

  // Whether r is one of the three rules of a state.
  predicate Names(s: State, r: nat) { r == s.rule || s.natRule == Some(r) || s.anchor == Some(r) }

  lemma MentionsOnce(rules: Rules, s: State, r: nat)
    requires RulesNamed(rules, s)
    ensures Mentions(s, r) == Bit(Names(s, r))
    ensures RuleIs(rules, r, FilterRule) ==> Mentions(s, r) == Bit(s.rule == r)
  {
  }

  // Adding a state whose rules and nodes are counted.
  lemma AddStateInv(w: World, i: nat, s: State, rules: Rules, nodes: Nodes)
    requires Inv(w) && i !in w.states && RulesNamed(w.rules, s) && NodesNamed(w.nodes, s)
    requires rules.Keys == w.rules.Keys
    requires forall r :: r in rules ==> rules[r] == w.rules[r].(states := w.rules[r].states + Mentions(s, r))
    requires nodes.Keys == w.nodes.Keys
    requires forall k :: k in nodes ==> nodes[k].states == w.nodes[k].states + Bit(Holds(s, k))
    requires w.rules[s.rule].info.maxStates > 0 ==> w.rules[s.rule].states < w.rules[s.rule].info.maxStates
    ensures Inv(World(rules, nodes, w.states[i := s]))
  {
    hide HeldBy, Uses, NodesOf, Mentions, Holds;
    var w1 := World(rules, nodes, w.states[i := s]);
    forall r | r in rules
      ensures RuleIs(rules, r, FilterRule) ==> Mentions(s, r) == Bit(s.rule == r)
      ensures rules[r].states == Uses(w1.states, r) && |NodesOf(nodes, r)| <= rules[r].srcNodes
    {
      UsesAdd(w.states, i, s, r);
      MentionsOnce(w.rules, s, r);
      NodesOfSame(w.nodes, nodes, r);
    }
    forall k | k in nodes
      ensures nodes[k].states == HeldBy(w1.states, k) && (k.rule.Some? ==> k.rule.value in rules)
    {
      HeldAdd(w.states, i, s, k);
    }
  }

  // Same rules and states, and the same counts of the same nodes.
  lemma SameCountsInv(w: World, nodes: Nodes)
    requires Inv(w) && nodes.Keys == w.nodes.Keys
    requires forall k :: k in nodes ==> nodes[k].states == w.nodes[k].states
    ensures Inv(w.(nodes := nodes))
  {
    hide HeldBy, Uses, NodesOf;
    forall r | r in w.rules
      ensures |NodesOf(nodes, r)| <= w.rules[r].srcNodes
    {
      NodesOfSame(w.nodes, nodes, r);
    }
  }

  lemma SameRulesNamed(w: World, w1: World, q: Request, s: State)
    requires RequestOk(w, q) && NodesGrew(w, w1)
    requires s.rule == q.rule && s.natRule == q.natRule && s.anchor == q.anchor
    ensures RulesNamed(w1.rules, s)
  {
  }

  /** Every creation, and every failed one, keeps the counts. */
  lemma CreateInv(w: World, q: Request)
    requires Inv(w) && RequestOk(w, q)
    ensures Inv(Create(w, q).1)
  {
    hide Inv, NodesGrew, FindNodes, RequestOk, Cleanup, Increment, Decrement, Hold, RemoveFromNodes, MappedNode,
      NodeOfTranslation, RulesNamed, NodesNamed, RulesCounted, NodesCounted;
    RequestFacts(w, q);
    if AtMax(w, q) {
      CleanupInv(w, None, NodeOfTranslation(w, q));
    } else {
      var (ok, sn, nsn, w1) := FindNodes(w, q);
      NodesFound(w, q);
      GrewKeys(w, w1);
      GrewRule(w, w1, q.rule);
      FindNodesInv(w, q);
      CleanupInv(w1, sn, nsn);
      if ok && q.stateMemory {
        var s := StateOf(w1, q, sn, nsn);
        HeldNodes(w, q);
        SameRulesNamed(w, w1, q, s);
        var nodes := Hold(Hold(w1.nodes, sn), nsn);
        if q.normalized && q.inserted {
          IncrementCounts(w1.rules, s);
          AddStateInv(w1, q.id, s, Increment(w1.rules, s), nodes);
        } else {
          IncrementDecrement(w1.rules, s);
          RemoveFromNodesCounts(nodes, s, Expiry(w, q));
          SameCountsInv(w1, RemoveFromNodes(nodes, s, Expiry(w, q)));
        }
      }
    }
  }

  lemma RequestFacts(w: World, q: Request)
    requires RequestOk(w, q)
    ensures q.id !in w.states && q.rule in w.rules && q.now > 0
  {
  }

  lemma GrewRule(w: World, w1: World, r: nat)
    requires NodesGrew(w, w1) && r in w.rules
    ensures r in w1.rules && w1.rules[r] == w.rules[r].(srcNodes := w1.rules[r].srcNodes)
  {
  }

  // --------------------------------------------------- the limit on a node's states

  /** No translation was found, but the pool asked for one knows the source by a node
      that is at its limit already. */
  predicate Overfills(w: World, q: Request)
    requires RequestOk(w, q)
  {
    && q.natRule.None? && NodeOfTranslation(w, q).Some?
    && var k := NodeOfTranslation(w, q).value; !NodeWithin(w.rules, k, w.nodes[k].states + 1)
  }

  // Nodes and their counts may only have become fewer.
  lemma WithinStays(w: World, w1: World)
    requires WithinSrcStates(w)
    requires forall k :: k in w1.nodes ==> k in w.nodes && w1.nodes[k].states <= w.nodes[k].states
    requires forall k, r :: k in w1.nodes && k.rule == Some(r) && r in w1.rules ==>
               r in w.rules && w1.rules[r].info == w.rules[r].info
    ensures WithinSrcStates(w1)
  {
    forall k | k in w1.nodes
      ensures NodeWithin(w1.rules, k, w1.nodes[k].states)
    {
      assert NodeWithin(w.rules, k, w.nodes[k].states);
    }
  }

  lemma GrewWithin(w: World, w1: World)
    requires WithinSrcStates(w) && NodesGrew(w, w1)
    ensures WithinSrcStates(w1)
  {
  }

  lemma CleanupWithin(w: World, sn: Option<NodeKey>, nsn: Option<NodeKey>)
    requires WithinSrcStates(w) && (sn.Some? ==> sn.value in w.nodes) && (nsn.Some? ==> nsn.value in w.nodes)
    ensures WithinSrcStates(Cleanup(w, sn, nsn))
  {
    WithinStays(w, Cleanup(w, sn, nsn));
  }

  // The new state takes each of its nodes up by one.
  lemma HoldWithin(w: World, q: Request)
    requires WithinSrcStates(w) && RequestOk(w, q) && FindNodes(w, q).0 && !Overfills(w, q)
    ensures var (_, sn, nsn, w1) := FindNodes(w, q);
            WithinSrcStates(w1.(nodes := Hold(Hold(w1.nodes, sn), nsn)))
  {
    hide FindNodes, NodesGrew, Hold, RequestOk, NodeOfTranslation, NodeWithin;
    var (_, sn, nsn, w1) := FindNodes(w, q);
    NodesFound(w, q);
    HeldNodes(w, q);
    GrewWithin(w, w1);
    NotFullGrew(w, q);
    var nodes := Hold(Hold(w1.nodes, sn), nsn);
    forall k | k in nodes
      ensures NodeWithin(w1.rules, k, nodes[k].states)
    {
      assert NodeWithin(w1.rules, k, w1.nodes[k].states);
    }
  }

  lemma NotFullGrew(w: World, q: Request)
    requires RequestOk(w, q) && FindNodes(w, q).0 && !Overfills(w, q)
    ensures var (_, sn, nsn, w1) := FindNodes(w, q); RoomLeft(w1, nsn)
  {
    hide FindNodes, RequestOk, NodeOfTranslation;
    NodesFound(w, q);
  }

  lemma HoldOverfills(w: World, q: Request)
    requires RequestOk(w, q) && FindNodes(w, q).0 && Overfills(w, q)
    ensures var (_, sn, nsn, w1) := FindNodes(w, q);
            !WithinSrcStates(w1.(nodes := Hold(Hold(w1.nodes, sn), nsn)))
  {
    hide FindNodes, NodesGrew, Hold, RequestOk, NodeOfTranslation;
    var (_, sn, nsn, w1) := FindNodes(w, q);
    NodesFound(w, q);
    HeldNodes(w, q);
    GrewKeys(w, w1);
    var k, nodes := NodeOfTranslation(w, q).value, Hold(Hold(w1.nodes, sn), nsn);
    GrewNode(w, w1, k);
    assert !NodeWithin(w1.rules, k, nodes[k].states);
  }

  // Uses of rules do not matter to the limit, nor which states there are.
  lemma WithinSameInfo(w: World, rules: Rules, states: States)
    requires rules.Keys == w.rules.Keys && forall r :: r in rules ==> rules[r].info == w.rules[r].info
    ensures WithinSrcStates(World(rules, w.nodes, states)) <==> WithinSrcStates(w)
  {
    assert forall k :: k in w.nodes ==>
      NodeWithin(rules, k, w.nodes[k].states) == NodeWithin(w.rules, k, w.nodes[k].states);
  }

  lemma GrewNode(w: World, w1: World, k: NodeKey)
    requires NodesGrew(w, w1) && k in w.nodes
    ensures k in w1.nodes && w1.nodes[k] == w.nodes[k]
  {
  }

  /** A creation keeps the nodes within their rules' `max_src_states` if and only if it
      fails or does not come from a search in vain that found a full node. */
  lemma CreateWithinExactly(w: World, q: Request)
    requires WithinSrcStates(w) && RequestOk(w, q)
    ensures WithinSrcStates(Create(w, q).1) <==> !(Create(w, q).0 && Overfills(w, q))
  {
    hide WithinSrcStates, NodesGrew, FindNodes, RequestOk, Cleanup, Increment, Decrement, Hold, RemoveFromNodes,
      MappedNode, NodeOfTranslation, RulesNamed, NodesNamed, RulesCounted, NodesCounted, Overfills;
    RequestFacts(w, q);
    if AtMax(w, q) {
      CleanupWithin(w, None, NodeOfTranslation(w, q));
    } else {
      var (ok, sn, nsn, w1) := FindNodes(w, q);
      NodesFound(w, q);
      GrewKeys(w, w1);
      GrewWithin(w, w1);
      CleanupWithin(w1, sn, nsn);
      if ok && q.stateMemory {
        var s := StateOf(w1, q, sn, nsn);
        var nodes := Hold(Hold(w1.nodes, sn), nsn);
        HeldNodes(w, q);
        SameRulesNamed(w, w1, q, s);
        if q.normalized && q.inserted {
          IncrementCounts(w1.rules, s);
          WithinSameInfo(w1.(nodes := nodes), Increment(w1.rules, s), w1.states[q.id := s]);
          if Overfills(w, q) {
            HoldOverfills(w, q);
          } else {
            HoldWithin(w, q);
          }
        } else {
          IncrementDecrement(w1.rules, s);
          RemoveFromNodesCounts(nodes, s, Expiry(w, q));
          WithinStays(w1, World(w1.rules, RemoveFromNodes(nodes, s, Expiry(w, q)), w1.states));
        }
      }
    }
  }

  // ------------------------------------------------------------ refused creations

  // Nodes that no state holds wait for their expiry.
  ghost predicate Lingering(nodes: Nodes) {
    forall k :: k in nodes && nodes[k].states == 0 ==> nodes[k].expire > 0
  }

  lemma CleanupExactly(w: World, w1: World, sn: Option<NodeKey>, nsn: Option<NodeKey>)
    requires NodesGrew(w, w1) && Lingering(w.nodes)
    requires (sn.Some? ==> sn.value in w1.nodes) && (nsn.Some? ==> nsn.value in w1.nodes)
    requires forall k :: k in w1.nodes && k !in w.nodes ==> sn == Some(k) || nsn == Some(k)
    ensures Cleanup(w1, sn, nsn).nodes == w.nodes
  {
    var c := Cleanup(w1, sn, nsn).nodes;
    DiscardExactly(w, w1.nodes, sn);
    if nsn != sn {
      DiscardExactly(w, Discard(w1.nodes, sn), nsn);
    }
  }

  lemma DiscardExactly(w: World, n: Nodes, k: Option<NodeKey>)
    requires (k.Some? ==> k.value in n) && Lingering(w.nodes)
    requires forall j :: j in w.nodes ==> j in n && n[j] == w.nodes[j]
    requires forall j :: j in n && j !in w.nodes ==> n[j] == Node(0, 0)
    ensures Discard(n, k) == if k.Some? && k.value !in w.nodes then n - {k.value} else n
  {
  }

  /** A creation that fails leaves all states, and the count of every rule and node,
      as they were. Before the state is made not even a node is left behind; later,
      new nodes stay until they expire. */
  lemma RefusalRollsBack(w: World, q: Request)
    requires Lingering(w.nodes) && RequestOk(w, q) && !Create(w, q).0
    ensures var w1 := Create(w, q).1;
            && w1.states == w.states && w1.rules.Keys == w.rules.Keys && w.nodes.Keys <= w1.nodes.Keys
            && (forall r :: r in w.rules ==> w1.rules[r] == w.rules[r].(srcNodes := w1.rules[r].srcNodes))
            && (forall k :: k in w.nodes ==> w1.nodes[k].states == w.nodes[k].states)
            && (forall k :: k in w1.nodes && k !in w.nodes ==>
                  w1.nodes[k] == Node(0, q.now + w.rules[q.rule].info.timeout))
            && (AtMax(w, q) || !q.stateMemory || !FindNodes(w, q).0 ==> w1.nodes == w.nodes)
  {
    hide FindNodes, RequestOk, Increment, Decrement, Hold, RemoveFromNodes, MappedNode,
      NodeOfTranslation, RulesNamed, NodesNamed, RulesCounted, NodesCounted, Lingering, Cleanup, Discard;
    RequestFacts(w, q);
    if AtMax(w, q) {
      GrewRefl(w);
      CleanupExactly(w, w, None, NodeOfTranslation(w, q));
      CleanupKeeps(w, None, NodeOfTranslation(w, q));
    } else {
      var (ok, sn, nsn, w1) := FindNodes(w, q);
      NodesFound(w, q);
      if !(ok && q.stateMemory) {
        CleanupExactly(w, w1, sn, nsn);
        CleanupKeeps(w1, sn, nsn);
      } else {
        var s := StateOf(w1, q, sn, nsn);
        var nodes := Hold(Hold(w1.nodes, sn), nsn);
        HeldNodes(w, q);
        GrewRule(w, w1, q.rule);
        SameRulesNamed(w, w1, q, s);
        IncrementDecrement(w1.rules, s);
        RemoveFromNodesCounts(nodes, s, Expiry(w, q));
        RefusedNodes(w, q);
      }
    }
  }

  lemma CleanupKeeps(w: World, sn: Option<NodeKey>, nsn: Option<NodeKey>)
    requires (sn.Some? ==> sn.value in w.nodes) && (nsn.Some? ==> nsn.value in w.nodes)
    ensures Cleanup(w, sn, nsn) == w.(nodes := Cleanup(w, sn, nsn).nodes)
  {
  }

  // A node made for a state that did not get in now waits for its expiry.
  lemma RefusedNodes(w: World, q: Request)
    requires RequestOk(w, q) && FindNodes(w, q).0
    ensures var (_, sn, nsn, w1) := FindNodes(w, q);
            && q.rule in w1.rules
            && var s, nodes := StateOf(w1, q, sn, nsn), Hold(Hold(w1.nodes, sn), nsn);
            && NodesCounted(nodes, s)
            && forall k :: k in w1.nodes && k !in w.nodes && k in RemoveFromNodes(nodes, s, Expiry(w, q)) ==>
                 RemoveFromNodes(nodes, s, Expiry(w, q))[k] == Node(0, Expiry(w, q))
  {
    hide FindNodes, MappedNode, RequestOk;
    HeldNodes(w, q);
    NodesFound(w, q);
    var (_, sn, nsn, w1) := FindNodes(w, q);
    var s, nodes := StateOf(w1, q, sn, nsn), Hold(Hold(w1.nodes, sn), nsn);
    DropExpires(nodes, s, Expiry(w, q));
  }

  lemma DropExpires(nodes: Nodes, s: State, expire: nat)
    requires NodesCounted(nodes, s)
    ensures forall k :: k in nodes && Holds(s, k) && nodes[k].states == 1 ==>
              RemoveFromNodes(nodes, s, expire)[k] == Node(0, expire)
  {
    RemoveFromNodesCounts(nodes, s, expire);
  }
}
