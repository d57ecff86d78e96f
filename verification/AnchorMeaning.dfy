/** What an evaluation means to someone who writes rules: which rule of a list wins,
    that an anchor stands for the rules in it, and how deep anchors nest. */
module AnchorMeaning {
  import opened Options
  import opened PfRules
  import opened AnchorWalk

  // ------------------------------------------------------------ a list without calls

  ghost predicate NoCalls(list: seq<Rule>) {
    forall k :: 0 <= k < |list| ==> list[k].call == NoCall
  }

  // What the tests carry along after the first `i` rules of a list.
  function ProgressAt(q: Query, list: seq<Rule>, i: nat): Progress
    requires i <= |list|
  {
    if i == 0 then Progress(-1, 0)
    else match Try(q, list[i - 1], ProgressAt(q, list, i - 1))
      case Jump(_) => ProgressAt(q, list, i - 1)
      case Miss(p) => p
      case Hit(p) => p
  }

  predicate HitAt(q: Query, list: seq<Rule>, i: nat)
    requires i < |list|
  {
    Try(q, list[i], ProgressAt(q, list, i)).Hit?
  }

  // Rule `i` is hit, and no rule before it has ended the evaluation.
  predicate Counts(q: Query, list: seq<Rule>, i: nat)
    requires i < |list|
  {
    HitAt(q, list, i) && forall j :: 0 <= j < i && HitAt(q, list, j) ==> q.lookup == Filter && !list[j].quick
  }

  // The matches among the first `i` rules, in order.
  function Log(q: Query, list: seq<Rule>, i: nat): seq<Match>
    requires i <= |list|
  {
    if i == 0 then [] else Log(q, list, i - 1) + if Counts(q, list, i - 1) then [Match(None, i - 1, None)] else []
  }

  predicate Ended(q: Query, list: seq<Rule>, i: nat)
    requires i <= |list|
  {
    exists j :: 0 <= j < i && HitAt(q, list, j) && (q.lookup == Translation || list[j].quick)
  }

  lemma {:induction false} LogHas(q: Query, list: seq<Rule>, i: nat, m: Match)
    requires i <= |list|
    ensures m in Log(q, list, i) <==> m.rs == None && m.outer == None && m.rule < i && Counts(q, list, m.rule)
  {
    hide Counts;
    if i > 0 {
      LogHas(q, list, i - 1, m);
    }
  }

  lemma {:induction false} LogLast(q: Query, list: seq<Rule>, i: nat, j: nat)
    requires j <= i <= |list| && forall k :: j <= k < i ==> !Counts(q, list, k)
    ensures Log(q, list, i) == Log(q, list, j)
    decreases i
  {
    hide Counts;
    if j < i {
      LogLast(q, list, i - 1, j);
    }
  }

  // The log once the evaluation has ended.
  lemma {:induction false} LogEnded(q: Query, list: seq<Rule>, i: nat, n: nat)
    requires i <= n <= |list| && Ended(q, list, i)
    ensures Log(q, list, n) == Log(q, list, i)
    decreases n
  {
    hide HitAt;
    if i < n {
      LogEnded(q, list, i, n - 1);
    }
  }

  lemma LogNext(q: Query, list: seq<Rule>, i: nat)
    ensures i < |list| ==>
      Log(q, list, i + 1) == Log(q, list, i) + if Counts(q, list, i) then [Match(None, i, None)] else []
  {
    hide Counts;
  }

  // Until the evaluation has ended every rule that is hit counts.
  lemma OneMoreRule(q: Query, list: seq<Rule>, i: nat)
    requires i < |list| && !Ended(q, list, i)
    ensures Counts(q, list, i) <==> Try(q, list[i], ProgressAt(q, list, i)).Hit?
    ensures Ended(q, list, i + 1) <==> Counts(q, list, i) && (q.lookup == Translation || list[i].quick)
    ensures ProgressAt(q, list, i + 1) ==
      var o := Try(q, list[i], ProgressAt(q, list, i)); if o.Jump? then ProgressAt(q, list, i) else o.p
  {
    hide Try;
  }

  lemma {:induction false} RunIsLog(q: Query, g: Graph, i: nat, s: Result)
    requires NoCalls(g.main) && i <= |g.main| && s.visited == Log(q, g.main, i)
    requires s.done <==> Ended(q, g.main, i)
    requires !s.done ==> s.p == ProgressAt(q, g.main, i)
    ensures RunList(q, g, None, i, 0, None, s).visited == Log(q, g.main, |g.main|)
    decreases |g.main| - i
  {
    hide Try, Log;
    var list := g.main;
    LogNext(q, list, i);
    if s.done {
      LogEnded(q, list, i, |list|);
    } else if i < |list| {
      hide Counts, Ended;
      OneMoreRule(q, list, i);
      match Try(q, list[i], s.p)
      case Jump(_) => RunIsLog(q, g, i + 1, s);
      case Miss(p) => RunIsLog(q, g, i + 1, s.(p := p));
      case Hit(p) =>
        RunIsLog(q, g, i + 1, Record(s, Match(None, i, None), p, Final(q, list[i])));
    }
  }

  /** Without anchors: a rule is recorded if and only if it is hit and no rule before it
      ended the evaluation, which in the filter a `quick` rule does that is hit, and in
      translation any rule that is hit; and the rule found is the last of those. */
  lemma LastOfListWins(q: Query, g: Graph, i: nat)
    requires NoCalls(g.main) && i < |g.main|
    ensures Match(None, i, None) in Evaluate(q, g).visited <==> Counts(q, g.main, i)
    ensures Evaluate(q, g).found == Some(Match(None, i, None)) <==>
      Counts(q, g.main, i) && forall j :: i < j < |g.main| ==> !Counts(q, g.main, j)
    ensures Evaluate(q, g).found == None <==> forall j :: 0 <= j < |g.main| ==> !Counts(q, g.main, j)
  {
    hide HitAt, RunList;
    RunIsLog(q, g, 0, START);
    EvaluateLastMatch(q, g);
    var log := Log(q, g.main, |g.main|);
    assert Evaluate(q, g).visited == log;
    forall m: Match
      ensures m in log <==> m.rs == None && m.outer == None && m.rule < |g.main| && Counts(q, g.main, m.rule)
    {
      LogHas(q, g.main, |g.main|, m);
    }
    if Counts(q, g.main, i) && forall j :: i < j < |g.main| ==> !Counts(q, g.main, j) {
      LogLast(q, g.main, |g.main|, i + 1);
    }
    LastIsGreatest(q, g.main, |g.main|);
    if log == [] {
      forall j | 0 <= j < |g.main|
        ensures !Counts(q, g.main, j)
      {
        assert Match(None, j, None) !in log;
      }
    }
  }

  lemma {:induction false} LastIsGreatest(q: Query, list: seq<Rule>, i: nat)
    requires i <= |list|
    ensures var log := Log(q, list, i);
      log != [] ==> log[|log| - 1].rule < i &&
                    forall j :: log[|log| - 1].rule < j < i ==> !Counts(q, list, j)
  {
    hide Counts;
    if i > 0 {
      LastIsGreatest(q, list, i - 1);
    }
  }

  // ---------------------------------------------------------- anchors are inlined

  /** What an evaluation has done, without the places of the rules. */
  datatype Seen = Seen(p: Progress, rules: seq<Rule>, done: bool)

  // The rules of a list tested one after the other.
  function Fold(q: Query, list: seq<Rule>, f: Seen): Seen
    decreases |list|
  {
    if list == [] || f.done then f
    else match Try(q, list[0], f.p)
      case Jump(_) => Fold(q, list[1..], f)
      case Miss(p) => Fold(q, list[1..], f.(p := p))
      case Hit(p) => Fold(q, list[1..], Seen(p, f.rules + [list[0]], q.lookup == Translation || list[0].quick))
  }

  ghost predicate Placed(g: Graph, visited: seq<Match>) {
    forall k :: 0 <= k < |visited| ==> visited[k].rule < |ListOf(g, visited[k].rs)|
  }

  function RulesOf(g: Graph, visited: seq<Match>): (r: seq<Rule>)
    requires Placed(g, visited)
    ensures |r| == |visited|
  {
    seq(|visited|, k requires 0 <= k < |visited| => ListOf(g, visited[k].rs)[visited[k].rule])
  }

  function See(g: Graph, s: Result): Seen
    requires Placed(g, s.visited)
  {
    Seen(s.p, RulesOf(g, s.visited), s.done)
  }

  // The lists of the rulesets called, one after the other.
  function Inlined(g: Graph, targets: seq<nat>): seq<Rule> {
    if targets == [] then [] else g.lists(targets[0]) + Inlined(g, targets[1..])
  }

  lemma {:induction false} FoldConcat(q: Query, a: seq<Rule>, b: seq<Rule>, f: Seen)
    ensures Fold(q, a + b, f) == Fold(q, b, Fold(q, a, f))
    decreases |a|
  {
    if a == [] {
      assert a + b == b;
    } else if !f.done {
      assert (a + b)[1..] == a[1..] + b;
      match Try(q, a[0], f.p)
      case Jump(_) => FoldConcat(q, a[1..], b, f);
      case Miss(p) => FoldConcat(q, a[1..], b, f.(p := p));
      case Hit(p) => FoldConcat(q, a[1..], b, Seen(p, f.rules + [a[0]], q.lookup == Translation || a[0].quick));
    }
  }

  lemma RecordSeen(q: Query, g: Graph, s: Result, m: Match, p: Progress)
    requires Placed(g, s.visited) && m.rule < |ListOf(g, m.rs)|
    ensures var r, t := ListOf(g, m.rs)[m.rule], Record(s, m, p, Final(q, ListOf(g, m.rs)[m.rule]));
      Placed(g, t.visited) && See(g, t) == Seen(p, See(g, s).rules + [r], q.lookup == Translation || r.quick)
  {
    var t := Record(s, m, p, Final(q, ListOf(g, m.rs)[m.rule]));
    assert RulesOf(g, t.visited) == RulesOf(g, s.visited) + [ListOf(g, m.rs)[m.rule]];
  }

  lemma {:induction false} RunIsFold(q: Query, g: Graph, rs: Option<nat>, i: nat, depth: nat,
                                     outer: Option<nat>, s: Result)
    requires depth <= STACK_SIZE && NoCalls(ListOf(g, rs)) && i <= |ListOf(g, rs)| && Placed(g, s.visited)
    ensures var t := RunList(q, g, rs, i, depth, outer, s);
      Placed(g, t.visited) && See(g, t) == Fold(q, ListOf(g, rs)[i..], See(g, s))
    decreases |ListOf(g, rs)| - i
  {
    hide Try, Record, RulesOf;
    var list := ListOf(g, rs);
    if i < |list| && !s.done {
      assert list[i..][1..] == list[i + 1..];
      match Try(q, list[i], s.p)
      case Jump(_) => RunIsFold(q, g, rs, i + 1, depth, outer, s);
      case Miss(p) => RunIsFold(q, g, rs, i + 1, depth, outer, s.(p := p));
      case Hit(p) =>
        RecordSeen(q, g, s, Match(rs, i, outer), p);
        RunIsFold(q, g, rs, i + 1, depth, outer, Record(s, Match(rs, i, outer), p, Final(q, list[i])));
    }
  }

  lemma {:induction false} CallsAreFold(q: Query, g: Graph, t: seq<nat>, depth: nat, outer: Option<nat>, s: Result)
    requires depth <= STACK_SIZE && Placed(g, s.visited) && forall k :: 0 <= k < |t| ==> NoCalls(g.lists(t[k]))
    ensures var r := RunCalls(q, g, t, 0, depth, outer, s);
      Placed(g, r.visited) && See(g, r) == Fold(q, Inlined(g, t), See(g, s))
    decreases |t|
  {
    hide RunList, Fold, NoCalls, Placed;
    if t == [] {
      assert Fold(q, [], See(g, s)) == See(g, s) by { FoldNothing(q, [], See(g, s)); }
      RunCallsNothing(q, g, depth, outer, s);
    } else {
      var s1 := RunList(q, g, Some(t[0]), 0, depth, outer, s);
      RunIsFold(q, g, Some(t[0]), 0, depth, outer, s);
      assert ListOf(g, Some(t[0]))[0..] == g.lists(t[0]);
      CallsAreFold(q, g, t[1..], depth, outer, s1);
      RunCallsFirst(q, g, t, depth, outer, s);
      FoldConcat(q, g.lists(t[0]), Inlined(g, t[1..]), See(g, s));
    }
  }

  lemma FoldNothing(q: Query, list: seq<Rule>, f: Seen)
    requires list == [] || f.done
    ensures Fold(q, list, f) == f
  {
  }

  /** An anchor rule that is hit stands for the rules of its ruleset, and under a
      wildcard for those of the ruleset's children in order: the rules recorded, in
      their order, are those a single list of them would give, and what follows the
      anchor rule is then evaluated as if there had been just these rules. */
  lemma CallIsInlining(q: Query, g: Graph, rs: Option<nat>, i: nat, depth: nat, outer: Option<nat>, s: Result)
    requires depth < STACK_SIZE && i < |ListOf(g, rs)| && Placed(g, s.visited) && !s.done
    requires ListOf(g, rs)[i].call.Call? && Try(q, ListOf(g, rs)[i], s.p).Hit?
    requires var c := ListOf(g, rs)[i].call;
      if c.wildcard then forall k :: 0 <= k < |g.children(c.anchor)| ==> NoCalls(g.lists(g.children(c.anchor)[k]))
      else NoCalls(g.lists(c.anchor))
    ensures var c, p := ListOf(g, rs)[i].call, Try(q, ListOf(g, rs)[i], s.p).p;
      var rules := if c.wildcard then Inlined(g, g.children(c.anchor)) else g.lists(c.anchor);
      exists s1: Result :: Placed(g, s1.visited) && See(g, s1) == Fold(q, rules, See(g, s.(p := p)))
        && RunList(q, g, rs, i, depth, outer, s) == RunList(q, g, rs, i + 1, depth, outer, s1)
  {
    hide Fold, NoCalls, RunCalls, Try;
    var c, p := ListOf(g, rs)[i].call, Try(q, ListOf(g, rs)[i], s.p).p;
    var t, o := Targets(g, c), Outermost(i, depth, outer);
    CallsAreFold(q, g, t, depth + 1, o, s.(p := p));
    if !c.wildcard {
      assert Inlined(g, t[1..]) == [];
      assert Inlined(g, t) == g.lists(c.anchor) + [] == g.lists(c.anchor);
    }
    var s1 := RunCalls(q, g, t, 0, depth + 1, o, s.(p := p));
    assert RunList(q, g, rs, i, depth, outer, s) == RunList(q, g, rs, i + 1, depth, outer, s1);
  }

  // ------------------------------------------------------------ where matches are

  /** A match in the main list names no outer rule; one in an anchor names the rule of
      the main list through which evaluation entered. */
  ghost predicate OuterOk(g: Graph, visited: seq<Match>) {
    forall k :: 0 <= k < |visited| ==> EntryOk(g, visited[k].rs, visited[k].outer)
  }

  predicate EntryOk(g: Graph, rs: Option<nat>, outer: Option<nat>) {
    if rs == None then outer == None
    else outer.Some? && outer.value < |g.main| && g.main[outer.value].call.Call?
  }

  lemma {:induction false} RunOuter(q: Query, g: Graph, rs: Option<nat>, i: nat, depth: nat,
                                    outer: Option<nat>, s: Result)
    requires depth <= STACK_SIZE && OuterOk(g, s.visited) && EntryOk(g, rs, outer) && (depth == 0 <==> rs == None)
    ensures OuterOk(g, RunList(q, g, rs, i, depth, outer, s).visited)
    decreases STACK_SIZE - depth, 0, |ListOf(g, rs)| - i
  {
    hide Try, RunCalls, Targets;
    if i < |ListOf(g, rs)| && !s.done {
      var r := ListOf(g, rs)[i];
      match Try(q, r, s.p)
      case Jump(_) => RunOuter(q, g, rs, i + 1, depth, outer, s);
      case Miss(p) => RunOuter(q, g, rs, i + 1, depth, outer, s.(p := p));
      case Hit(p) =>
        if r.call.NoCall? {
          RunOuter(q, g, rs, i + 1, depth, outer, Record(s, Match(rs, i, outer), p, Final(q, r)));
        } else if depth >= STACK_SIZE {
          RunOuter(q, g, rs, i + 1, depth, outer, s.(p := p));
        } else {
          var t, o := Targets(g, r.call), Outermost(i, depth, outer);
          CallsOuter(q, g, t, 0, depth + 1, o, s.(p := p));
          RunOuter(q, g, rs, i + 1, depth, outer, RunCalls(q, g, t, 0, depth + 1, o, s.(p := p)));
        }
    }
  }

  lemma {:induction false} CallsOuter(q: Query, g: Graph, t: seq<nat>, k: nat, depth: nat,
                                      outer: Option<nat>, s: Result)
    requires 0 < depth <= STACK_SIZE && OuterOk(g, s.visited)
    requires outer.Some? && outer.value < |g.main| && g.main[outer.value].call.Call?
    ensures OuterOk(g, RunCalls(q, g, t, k, depth, outer, s).visited)
    decreases STACK_SIZE - depth, 1, |t| - k
  {
    if k < |t| && !s.done {
      RunOuter(q, g, Some(t[k]), 0, depth, outer, s);
      CallsOuter(q, g, t, k + 1, depth, outer, RunList(q, g, Some(t[k]), 0, depth, outer, s));
    }
  }

  lemma MatchesNameTheirAnchor(q: Query, g: Graph)
    ensures OuterOk(g, Evaluate(q, g).visited)
  {
    RunOuter(q, g, None, 0, 0, None, START);
  }

  // ------------------------------------------------------------------ the stack ends

  const ANY_END := RuleAddr(false, NoRoute, 0, 0, AnyPort)

  // A rule for every packet.
  function AnyRule(call: AnchorCall): Rule {
    Rule(Pass, None, false, 0, 0, 0, ANY_END, ANY_END, None, 0, 0, 0, false, 0, 0, false, call, 0, [])
  }

  // An anchor whose rules are one for every packet and a call of itself.
  function Circle(): Graph {
    Graph([AnyRule(Call(0, false))], _ => [AnyRule(NoCall), AnyRule(Call(0, false))], _ => [])
  }

  lemma AnyRuleHits(q: Query, call: AnchorCall, p: Progress)
    requires q.lookup == Filter && q.misc(0) && q.os(0) && forall a, neg, x :: !q.mismatch(a, neg, x)
    ensures Try(q, AnyRule(call), p) == Hit(p)
  {
    HitsExactly(q, AnyRule(call), p);
  }

  lemma {:induction false} CircleRun(q: Query, depth: nat, outer: Option<nat>, s: Result)
    requires q.lookup == Filter && q.misc(0) && q.os(0) && forall a, neg, x :: !q.mismatch(a, neg, x)
    requires 0 < depth <= STACK_SIZE && !s.done
    ensures var r := RunList(q, Circle(), Some(0), 0, depth, outer, s);
      |r.visited| == |s.visited| + STACK_SIZE + 1 - depth && !r.done
    decreases STACK_SIZE - depth
  {
    hide Try;
    var g := Circle();
    AnyRuleHits(q, NoCall, s.p);
    var s1 := Record(s, Match(Some(0), 0, outer), s.p, false);
    assert RunList(q, g, Some(0), 0, depth, outer, s) == RunList(q, g, Some(0), 1, depth, outer, s1);
    AnyRuleHits(q, Call(0, false), s1.p);
    if depth == STACK_SIZE {
      assert RunList(q, g, Some(0), 1, depth, outer, s1) == RunList(q, g, Some(0), 2, depth, outer, s1) == s1;
    } else {
      CircleRun(q, depth + 1, outer, s1);
      var s2 := RunList(q, g, Some(0), 0, depth + 1, outer, s1);
      RunCallsFirst(q, g, [0], depth + 1, outer, s1);
      RunCallsNothing(q, g, depth + 1, outer, s2);
      assert Targets(g, Call(0, false)) == [0];
      assert RunList(q, g, Some(0), 1, depth, outer, s1) == RunList(q, g, Some(0), 2, depth, outer, s2) == s2;
    }
  }

  /** Anchors that call each other in a circle are entered 64 times and no more. */
  lemma CircleIsCut(q: Query)
    requires q.lookup == Filter && q.misc(0) && q.os(0) && forall a, neg, x :: !q.mismatch(a, neg, x)
    ensures |Evaluate(q, Circle()).visited| == 64
  {
    hide Try;
    var g := Circle();
    AnyRuleHits(q, Call(0, false), START.p);
    CircleRun(q, 1, Some(0), START);
    var s1 := RunList(q, g, Some(0), 0, 1, Some(0), START);
    RunCallsFirst(q, g, [0], 1, Some(0), START);
    RunCallsNothing(q, g, 1, Some(0), s1);
    assert Targets(g, Call(0, false)) == [0];
    assert Evaluate(q, g) == RunList(q, g, None, 1, 0, None, s1) == s1;
  }
}
