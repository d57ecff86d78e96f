/** The rules of a pf list, the tests a packet is put through, and the skip
    pointers that `pf_calc_skip_steps` threads through a list.

    A list is a sequence; a pointer into it is an index, NULL is `None`. */
module PfRules {
  import opened Options

  // PF_SKIP_*: the groups of fields that have a skip pointer.
  const SKIP_IFP := 0
  const SKIP_DIR := 1
  const SKIP_AF := 2
  const SKIP_PROTO := 3
  const SKIP_SRC_ADDR := 4
  const SKIP_SRC_PORT := 5
  const SKIP_DST_ADDR := 6
  const SKIP_DST_PORT := 7
  const SKIP_COUNT := 8

  // Packet directions; 0 in a rule means either.
  const PF_IN := 1
  const PF_OUT := 2

  datatype Action =
    | Pass | Drop | Scrub | NoScrub | Nat | NoNat | Binat | NoBinat | Rdr | NoRdr

  /** An address of a rule. Two `DynIf` values with the same table `kt` may
      come from different `dyn` records. */
  datatype AddrWrap =
    | AddrMask(addr: nat, mask: nat)
    | DynIf(kt: nat, dyn: nat)
    | NoRoute
    | Table(tbl: nat)
    | RtLabel(rtlabel: nat)

  datatype PortOp = AnyPort | Irg | Xrg | Rrg | Eq | Ne | Lt | Le | Gt | Ge

  datatype RuleAddr = RuleAddr(neg: bool, addr: AddrWrap, port0: nat, port1: nat, op: PortOp)

  // What a rule calls: `Call(a, true)` is the wildcard `a/*`.
  datatype AnchorCall = NoCall | Call(anchor: nat, wildcard: bool)

  /** `misc` stands for the fields whose tests have no skip pointer (TOS,
      fragment, TCP flags, user and group). `pool` is `rpool.cur`. */
  datatype Rule = Rule(
    action: Action, kif: Option<nat>, ifnot: bool, direction: nat, af: nat, proto: nat,
    src: RuleAddr, dst: RuleAddr, pool: Option<AddrWrap>,
    misc: nat, prob: nat, matchTag: nat, matchTagNot: bool, osfp: nat,
    tag: nat, quick: bool, call: AnchorCall,
    nr: int, skip: seq<Option<nat>>)

  datatype Lookup = Filter | Translation

  /** One evaluation: the packet, which loop runs, and the tests that reach
      outside this model as functions of the rule's field and the packet's.
      `rand(k)` is the k-th draw of `arc4random`. */
  datatype Query = Query(
    lookup: Lookup, kif: nat, kifParent: Option<nat>, direction: nat, af: nat, proto: nat,
    saddr: nat, daddr: nat, sport: nat, dport: nat, packetTag: nat,
    mismatch: (AddrWrap, bool, nat) -> bool, misc: nat -> bool, os: nat -> bool, rand: nat -> nat)

  // pf_addr_wrap_neq: an address type it does not know differs from everything.
  predicate AddrWrapNeq(a: AddrWrap, b: AddrWrap) {
    match (a, b)
    case (AddrMask(x, m), AddrMask(y, n)) => x != y || m != n
    case (DynIf(s, _), DynIf(t, _)) => s != t
    case (NoRoute, NoRoute) => false
    case (Table(s), Table(t)) => s != t
    case _ => true
  }

  // The part of an address a packet is compared with.
  function Matched(a: AddrWrap): AddrWrap {
    if a.DynIf? then DynIf(a.kt, 0) else a
  }

  // pf_match on ports in host order.
  predicate MatchPort(op: PortOp, a1: nat, a2: nat, p: nat) {
    match op
    case AnyPort => false
    case Irg => a1 < p < a2
    case Xrg => p < a1 || p > a2
    case Rrg => a1 <= p <= a2
    case Eq => p == a1
    case Ne => p != a1
    case Lt => p < a1
    case Le => p <= a1
    case Gt => p > a1
    case Ge => p >= a1
  }

  // An inbound BINAT rule is read backwards: its destination is held against
  // the packet's source.
  predicate Swapped(q: Query, r: Rule) {
    q.lookup.Translation? && r.action.Binat? && q.direction == PF_IN
  }

  predicate RejectsAddr(q: Query, a: RuleAddr, x: nat) {
    q.mismatch(Matched(a.addr), a.neg, x)
  }

  predicate RejectsPort(a: RuleAddr, p: nat) {
    !a.op.AnyPort? && !MatchPort(a.op, a.port0, a.port1, p)
  }

  /** The test guarding skip pointer `i` fails. */
  predicate Rejects(q: Query, r: Rule, i: nat)
    requires i < SKIP_COUNT
  {
    if i == SKIP_IFP then
      r.kif.Some? && (r.kif.value != q.kif && r.kif != q.kifParent) == !r.ifnot
    else if i == SKIP_DIR then r.direction != 0 && r.direction != q.direction
    else if i == SKIP_AF then r.af != 0 && r.af != q.af
    else if i == SKIP_PROTO then r.proto != 0 && r.proto != q.proto
    else if i == SKIP_SRC_ADDR then !Swapped(q, r) && RejectsAddr(q, r.src, q.saddr)
    else if i == SKIP_SRC_PORT then !Swapped(q, r) && RejectsPort(r.src, q.sport)
    else if i == SKIP_DST_ADDR then
      RejectsAddr(q, r.dst, if Swapped(q, r) then q.saddr else q.daddr)
    else RejectsPort(r.dst, if Swapped(q, r) then q.sport else q.dport)
  }

  /** What evaluation carries from rule to rule: the tag (-1 until the packet's
      own tag is fetched) and the number of random draws made. */
  datatype Progress = Progress(tag: int, draws: nat)

  datatype Outcome = Jump(field: nat) | Miss(p: Progress) | Hit(p: Progress)

  function FirstReject(q: Query, r: Rule, i: nat): (j: nat)
    requires i <= SKIP_COUNT
    ensures i <= j <= SKIP_COUNT
    ensures j < SKIP_COUNT ==> Rejects(q, r, j)
    ensures forall k :: i <= k < j ==> !Rejects(q, r, k)
    decreases SKIP_COUNT - i
  {
    if i == SKIP_COUNT || Rejects(q, r, i) then i else FirstReject(q, r, i + 1)
  }

  // The tag once fetched, and what is left to test after the skip fields.
  function Fetched(q: Query, tag: int): int {
    if tag == -1 then q.packetTag else tag
  }

  function TagAndOs(q: Query, r: Rule, p: Progress): Outcome {
    var p1 := if r.matchTag != 0 then p.(tag := Fetched(q, p.tag)) else p;
    if r.matchTag != 0 && (r.matchTag == p1.tag) == r.matchTagNot then Miss(p1)
    else if !q.os(r.osfp) then Miss(p1)
    else Hit(if r.tag != 0 then p1.(tag := r.tag) else p1)
  }

  function TryRest(q: Query, r: Rule, p: Progress): Outcome {
    if q.lookup.Translation? then
      if Swapped(q, r) && r.pool.Some? && q.mismatch(Matched(r.pool.value), false, q.daddr)
      then Miss(p) else TagAndOs(q, r, p)
    else if !q.misc(r.misc) then Miss(p)
    else if r.prob != 0 then
      var p1 := p.(draws := p.draws + 1);
      if r.prob <= q.rand(p.draws) then Miss(p1) else TagAndOs(q, r, p1)
    else TagAndOs(q, r, p)
  }

  /** One pass through the body of a match loop. */
  function Try(q: Query, r: Rule, p: Progress): (o: Outcome)
    ensures o.Jump? ==> o.field < SKIP_COUNT && Rejects(q, r, o.field)
    ensures o.Jump? <==> exists i :: 0 <= i < SKIP_COUNT && Rejects(q, r, i)
  {
    var i := FirstReject(q, r, 0);
    if i < SKIP_COUNT then Jump(i) else TryRest(q, r, p)
  }

  // The port operators in terms of `=` and `<`.
  lemma PortOperators(a1: nat, a2: nat, p: nat)
    ensures MatchPort(Eq, a1, a2, p) <==> p == a1
    ensures MatchPort(Lt, a1, a2, p) <==> p < a1
    ensures MatchPort(Ne, a1, a2, p) <==> !MatchPort(Eq, a1, a2, p)
    ensures MatchPort(Ge, a1, a2, p) <==> !MatchPort(Lt, a1, a2, p)
    ensures MatchPort(Le, a1, a2, p) <==> MatchPort(Lt, a1, a2, p) || MatchPort(Eq, a1, a2, p)
    ensures MatchPort(Gt, a1, a2, p) <==> !MatchPort(Le, a1, a2, p)
    ensures MatchPort(Irg, a1, a2, p) <==> MatchPort(Gt, a1, a2, p) && MatchPort(Lt, a2, a2, p)
    ensures MatchPort(Rrg, a1, a2, p) <==> MatchPort(Ge, a1, a2, p) && MatchPort(Le, a2, a2, p)
    ensures MatchPort(Xrg, a1, a2, p) <==> !MatchPort(Rrg, a1, a2, p)
  {
  }

  // One end of a packet is one that the rule's address and ports allow.
  predicate EndOk(q: Query, a: RuleAddr, addr: nat, port: nat) {
    !q.mismatch(Matched(a.addr), a.neg, addr) && (a.op == AnyPort || MatchPort(a.op, a.port0, a.port1, port))
  }

  /** A rule is hit if and only if every test it makes of the packet allows it, in
      whatever order they are made; with the tag it leaves and the draws it takes. A
      translation lookup makes no draw, and holds an inbound BINAT rule against the
      packet the other way round: its destination against the source, its pool against
      the destination. */
  lemma HitsExactly(q: Query, r: Rule, p: Progress)
    ensures var o := Try(q, r, p);
      var binat := q.lookup == Translation && r.action == Binat && q.direction == PF_IN;
      var seen := if r.matchTag != 0 && p.tag == -1 then q.packetTag else p.tag;
      var pool := binat && r.pool != None ==> !q.mismatch(Matched(r.pool.value), false, q.daddr);
      var chance := q.lookup == Filter ==> q.misc(r.misc) && (r.prob == 0 || q.rand(p.draws) < r.prob);
      && (o.Hit? <==>
            && (r.kif != None ==> (Some(q.kif) == r.kif || q.kifParent == r.kif) != r.ifnot)
            && (r.direction == 0 || r.direction == q.direction)
            && (r.af == 0 || r.af == q.af) && (r.proto == 0 || r.proto == q.proto)
            && (binat ==> EndOk(q, r.dst, q.saddr, q.sport))
            && (!binat ==> EndOk(q, r.src, q.saddr, q.sport) && EndOk(q, r.dst, q.daddr, q.dport))
            && pool && chance
            && (r.matchTag == 0 || (r.matchTag == seen) != r.matchTagNot)
            && q.os(r.osfp))
      && (o.Hit? ==> o.p.tag == if r.tag != 0 then r.tag else seen)
      && (o.Hit? ==> o.p.draws == p.draws + if q.lookup == Filter && r.prob != 0 then 1 else 0)
      && (o.Miss? ==> o.p.tag == if pool && chance then seen else p.tag)
      && (o.Miss? ==> o.p.draws == p.draws + if q.lookup == Filter && q.misc(r.misc) && r.prob != 0 then 1 else 0)
  {
  }

  // The first hit ends a translation lookup; in the filter only `quick` does.
  predicate Final(q: Query, r: Rule) {
    q.lookup.Translation? || r.quick
  }

  // ---------------------------------------------------------------- skip steps

  /** Neighbours agree on field group `i`: the guard of PF_SET_SKIP_STEPS fails. */
  predicate SameField(a: Rule, b: Rule, i: nat) {
    if i == SKIP_IFP then a.kif == b.kif && a.ifnot == b.ifnot
    else if i == SKIP_DIR then a.direction == b.direction
    else if i == SKIP_AF then a.af == b.af
    else if i == SKIP_PROTO then a.proto == b.proto
    else if i == SKIP_SRC_ADDR then a.src.neg == b.src.neg && !AddrWrapNeq(a.src.addr, b.src.addr)
    else if i == SKIP_SRC_PORT then
      a.src.port0 == b.src.port0 && a.src.port1 == b.src.port1 && a.src.op == b.src.op
    else if i == SKIP_DST_ADDR then a.dst.neg == b.dst.neg && !AddrWrapNeq(a.dst.addr, b.dst.addr)
    else a.dst.port0 == b.dst.port0 && a.dst.port1 == b.dst.port1 && a.dst.op == b.dst.op
  }

  /** The first rule after `k` that starts a new run of field group `i`. */
  function SkipTarget(list: seq<Rule>, k: nat, i: nat): (j: nat)
    requires k < |list|
    ensures k < j <= |list|
    ensures forall m :: k < m < j ==> SameField(list[m - 1], list[m], i)
    ensures j < |list| ==> !SameField(list[j - 1], list[j], i)
    decreases |list| - k
  {
    if k + 1 == |list| then |list|
    else if !SameField(list[k], list[k + 1], i) then k + 1
    else SkipTarget(list, k + 1, i)
  }

  function Pointer(list: seq<Rule>, k: nat): Option<nat> {
    if k < |list| then Some(k) else None
  }

  predicate SkipsSet(list: seq<Rule>) {
    forall k :: 0 <= k < |list| ==>
      |list[k].skip| == SKIP_COUNT &&
      forall i :: 0 <= i < SKIP_COUNT ==> list[k].skip[i] == Pointer(list, SkipTarget(list, k, i))
  }

  // The two lists agree on everything but the skip pointers.
  predicate SameButSkips(a: seq<Rule>, b: seq<Rule>) {
    |a| == |b| && forall k :: 0 <= k < |a| ==> a[k] == b[k].(skip := a[k].skip)
  }

  lemma {:induction false} SkipTargetUnique(list: seq<Rule>, k: nat, i: nat, j: nat)
    requires k < j <= |list|
    requires forall m :: k < m < j ==> SameField(list[m - 1], list[m], i)
    requires j < |list| ==> !SameField(list[j - 1], list[j], i)
    ensures SkipTarget(list, k, i) == j
    decreases |list| - k
  {
    if k + 1 < j {
      assert SameField(list[(k + 1) - 1], list[k + 1], i);
      SkipTargetUnique(list, k + 1, i, j);
    }
  }

  lemma {:induction false} SkipTargetSameButSkips(a: seq<Rule>, b: seq<Rule>, k: nat, i: nat)
    requires SameButSkips(a, b) && k < |a|
    ensures SkipTarget(a, k, i) == SkipTarget(b, k, i)
  {
    var j := SkipTarget(b, k, i);
    forall m | k < m < j
      ensures SameField(a[m - 1], a[m], i)
    {
      assert SameField(b[m - 1], b[m], i);
    }
    SkipTargetUnique(a, k, i, j);
  }

  /** Rules that agree on a field group are all rejected by it, or none is --
      unless one of them is read backwards and the other is not. */
  lemma SameFieldSameTest(q: Query, a: Rule, b: Rule, i: nat)
    requires i < SKIP_COUNT && SameField(a, b, i) && Swapped(q, a) == Swapped(q, b)
    ensures Rejects(q, a, i) == Rejects(q, b, i)
  {
  }

  /** Every lookup either swaps all rules of the list or none. */
  ghost predicate Unmixed(q: Query, list: seq<Rule>) {
    forall j, k :: 0 <= j < |list| && 0 <= k < |list| ==> Swapped(q, list[j]) == Swapped(q, list[k])
  }

  /** A rule that a skip pointer jumps over is one the packet cannot hit. */
  lemma {:induction false} SkippedAreRejected(q: Query, list: seq<Rule>, k: nat, i: nat, j: nat)
    requires i < SKIP_COUNT && k <= j < |list| && Unmixed(q, list)
    requires Rejects(q, list[k], i) && j < SkipTarget(list, k, i)
    ensures Rejects(q, list[j], i)
    decreases j - k
  {
    if k < j {
      SkippedAreRejected(q, list, k, i, j - 1);
      SameFieldSameTest(q, list[j - 1], list[j], i);
    }
  }

  // ------------------------------------------------- pf_calc_skip_steps, in place

  // head[i] has reached `h`; what is behind it in column i is final.
  ghost predicate Column(orig: seq<Rule>, rules: seq<Rule>, i: nat, h: nat)
    requires |orig| == |rules| && h <= |rules|
  {
    forall k :: 0 <= k < h ==>
      |rules[k].skip| == SKIP_COUNT && i < SKIP_COUNT &&
      rules[k].skip[i] == Pointer(orig, SkipTarget(orig, k, i))
  }

  // Between head[i] and the rule before `cur` field group i did not change.
  ghost predicate Run(orig: seq<Rule>, i: nat, h: nat, cur: nat)
    requires cur <= |orig|
  {
    forall m :: h < m < cur ==> SameField(orig[m - 1], orig[m], i)
  }

  ghost predicate Columns(orig: seq<Rule>, rules: seq<Rule>, head: seq<nat>)
    requires |orig| == |rules| && |head| == SKIP_COUNT
  {
    forall i :: 0 <= i < SKIP_COUNT ==> head[i] <= |rules| && Column(orig, rules, i, head[i])
  }

  ghost predicate Shape(orig: seq<Rule>, rules: seq<Rule>) {
    SameButSkips(rules, orig) && forall k :: 0 <= k < |rules| ==> |rules[k].skip| == SKIP_COUNT
  }

  // The list with pointer i of rule h leading to `cur`.
  function Pointed(rules: seq<Rule>, h: nat, i: nat, cur: nat): seq<Rule>
    requires h < |rules| && i < |rules[h].skip|
  {
    rules[h := rules[h].(skip := rules[h].skip[i := Pointer(rules, cur)])]
  }

  // Setting one pointer finishes one more rule of its column and disturbs no other.
  lemma SetOnePointer(orig: seq<Rule>, rules: seq<Rule>, head: seq<nat>, i: nat, cur: nat, after: seq<Rule>)
    requires i < SKIP_COUNT == |head| && Shape(orig, rules) && Columns(orig, rules, head)
    requires head[i] < cur <= |rules| && SkipTarget(orig, head[i], i) == cur
    requires after == Pointed(rules, head[i], i, cur)
    ensures Shape(orig, after) && Columns(orig, after, head[i := head[i] + 1])
  {
    var head1 := head[i := head[i] + 1];
    forall j | 0 <= j < SKIP_COUNT
      ensures head1[j] <= |after| && Column(orig, after, j, head1[j])
    {
      assert Column(orig, rules, j, head[j]);
    }
  }

  // A finished run is where the pointer of its first rule leads.
  lemma RunEnds(orig: seq<Rule>, i: nat, h: nat, cur: nat)
    requires h < cur <= |orig| && Run(orig, i, h, cur)
    requires cur < |orig| ==> !SameField(orig[cur - 1], orig[cur], i)
    ensures SkipTarget(orig, h, i) == cur && Run(orig, i, h + 1, cur)
  {
    SkipTargetUnique(orig, h, i, cur);
  }

  // The body of the macro's loop.
  method PointHead(rules: array<Rule>, head: array<nat>, i: nat, cur: nat, ghost orig: seq<Rule>)
    requires i < SKIP_COUNT && head.Length == SKIP_COUNT && |orig| == rules.Length
    requires head[i] < cur <= rules.Length
    requires Shape(orig, rules[..]) && Columns(orig, rules[..], head[..])
    requires SkipTarget(orig, head[i], i) == cur
    modifies rules, head
    ensures Shape(orig, rules[..]) && Columns(orig, rules[..], head[..])
    ensures head[..] == old(head[..])[i := old(head[i]) + 1]
  {
    hide Columns, SkipTarget;
    var h := head[i];
    SetOnePointer(orig, rules[..], head[..], i, cur, Pointed(rules[..], h, i, cur));
    rules[h] := rules[h].(skip := rules[h].skip[i := if cur < rules.Length then Some(cur) else None]);
    head[i] := h + 1;
    assert rules[..] == Pointed(old(rules[..]), h, i, cur);
    assert head[..] == old(head[..])[i := h + 1];
  }

  /** PF_SET_SKIP_STEPS(i): the pointers of the run that ends at `cur`. */
  method SetSkipSteps(rules: array<Rule>, head: array<nat>, i: nat, cur: nat, ghost orig: seq<Rule>)
    requires i < SKIP_COUNT && head.Length == SKIP_COUNT
    requires head[i] <= cur <= rules.Length
    requires Shape(orig, rules[..]) && Columns(orig, rules[..], head[..])
    requires Run(orig, i, head[i], cur)
    requires head[i] < cur < |orig| ==> !SameField(orig[cur - 1], orig[cur], i)
    modifies rules, head
    ensures Shape(orig, rules[..]) && Columns(orig, rules[..], head[..])
    ensures head[i] == cur
    ensures forall j :: 0 <= j < SKIP_COUNT && j != i ==> head[j] == old(head[j])
  {
    assert |orig| == rules.Length;
    hide Columns, Run, SkipTarget, SameField, Shape;
    while head[i] != cur
      invariant head[i] <= cur <= |orig| == rules.Length
      invariant Shape(orig, rules[..]) && Columns(orig, rules[..], head[..])
      invariant Run(orig, i, head[i], cur)
      invariant head[i] < cur < |orig| ==> !SameField(orig[cur - 1], orig[cur], i)
      invariant head[..] == old(head[..])[i := head[i]]
      decreases cur - head[i]
    {
      RunEnds(orig, i, head[i], cur);
      PointHead(rules, head, i, cur, orig);
    }
  }

  lemma SameFieldIgnoresSkips(rules: seq<Rule>, orig: seq<Rule>, j: nat, k: nat, i: nat)
    requires SameButSkips(rules, orig) && j < |orig| && k < |orig|
    ensures SameField(rules[j], rules[k], i) == SameField(orig[j], orig[k], i)
  {
  }

  // The eight guarded PF_SET_SKIP_STEPS of one turn of the outer loop.
  method EndRuns(rules: array<Rule>, head: array<nat>, cur: nat, ghost orig: seq<Rule>)
    requires head.Length == SKIP_COUNT && cur < rules.Length
    requires Shape(orig, rules[..]) && Columns(orig, rules[..], head[..])
    requires forall i :: 0 <= i < SKIP_COUNT ==> head[i] <= cur && Run(orig, i, head[i], cur)
    modifies rules, head
    ensures Shape(orig, rules[..]) && Columns(orig, rules[..], head[..])
    ensures forall i :: 0 <= i < SKIP_COUNT ==> head[i] <= cur && Run(orig, i, head[i], cur + 1)
  {
    hide SkipTarget, SameField, Column;
    var prev := if cur == 0 then 0 else cur - 1;
    for i := 0 to SKIP_COUNT
      invariant Shape(orig, rules[..]) && Columns(orig, rules[..], head[..])
      invariant forall j :: i <= j < SKIP_COUNT ==> head[j] <= cur && Run(orig, j, head[j], cur)
      invariant forall j :: 0 <= j < i ==> head[j] <= cur && Run(orig, j, head[j], cur + 1)
    {
      SameFieldIgnoresSkips(rules[..], orig, prev, cur, i);
      if !SameField(rules[prev], rules[cur], i) {
        SetSkipSteps(rules, head, i, cur, orig);
      }
    }
  }

  /** pf_calc_skip_steps: afterwards every skip pointer names the next rule that
      differs in its field group, and nothing else has changed. */
  method CalcSkipSteps(rules: array<Rule>)
    requires forall k :: 0 <= k < rules.Length ==> |rules[k].skip| == SKIP_COUNT
    modifies rules
    ensures SameButSkips(rules[..], old(rules[..]))
    ensures SkipsSet(rules[..])
  {
    ghost var orig := rules[..];
    var cur := 0;
    var head := new nat[SKIP_COUNT](_ => 0);
    while cur < rules.Length
      invariant cur <= rules.Length
      invariant Shape(orig, rules[..]) && Columns(orig, rules[..], head[..])
      invariant forall i :: 0 <= i < SKIP_COUNT ==> head[i] <= cur && Run(orig, i, head[i], cur)
    {
      EndRuns(rules, head, cur, orig);
      cur := cur + 1;
    }
    for i := 0 to SKIP_COUNT
      invariant Shape(orig, rules[..]) && Columns(orig, rules[..], head[..])
      invariant forall j :: 0 <= j < i ==> head[j] == rules.Length
      invariant forall j :: i <= j < SKIP_COUNT ==> Run(orig, j, head[j], rules.Length)
    {
      SetSkipSteps(rules, head, i, rules.Length, orig);
    }
    ColumnsDone(orig, rules[..], head[..]);
  }

  lemma ColumnsDone(orig: seq<Rule>, rules: seq<Rule>, head: seq<nat>)
    requires |head| == SKIP_COUNT && Shape(orig, rules) && Columns(orig, rules, head)
    requires forall i :: 0 <= i < SKIP_COUNT ==> head[i] == |rules|
    ensures SkipsSet(rules)
  {
    forall k, i | 0 <= k < |rules| && 0 <= i < SKIP_COUNT
      ensures rules[k].skip[i] == Pointer(rules, SkipTarget(rules, k, i))
    {
      assert Column(orig, rules, i, head[i]);
      SkipTargetSameButSkips(rules, orig, k, i);
    }
  }
}
