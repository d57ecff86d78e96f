/** When a request frees the ruleset it works on: a rule may be the last to call the
    ruleset it stands in, or one above which nothing but that ruleset is left. */
module LostRulesets {
  import opened Options
  import opened PfRules
  import opened Rulesets

  /** The chain of parents from `a` to `p`: nothing is left in any of them, and each
      has no child but the one before it. */
  ghost predicate Collapses(m: map<string, Ruleset>, a: string, p: string, c: seq<string>) {
    && c != [] && c[0] == a && c[|c| - 1] == p
    && (forall i :: 0 <= i < |c| ==> c[i] in m && IsBare(m, c[i]))
    && (forall i :: 0 < i < |c| ==> m[c[i - 1]].parent == Some(c[i]))
    && (forall i, q :: 0 <= i < |c| && q in m && m[q].parent == Some(c[i]) ==> i > 0 && q == c[i - 1])
  }

  // Taking the first ruleset of a chain away leaves a chain.
  lemma ChainTail(m: map<string, Ruleset>, a: string, p: string, c: seq<string>)
    requires Collapses(m, a, p, c) && |c| > 1
    ensures IsEmpty(m, a) && m[a].parent == Some(c[1])
    ensures p in m - {a} && Collapses(m - {a}, c[1], p, c[1..])
  {
    hide IsBare;
    var rest, d := m - {a}, c[1..];
    forall i | 0 <= i < |d|
      ensures d[i] in rest && IsBare(rest, d[i])
      ensures forall q :: q in rest && rest[q].parent == Some(d[i]) ==> i > 0 && q == d[i - 1]
    {
      assert d[i] == c[i + 1] && m[c[i]].parent == Some(c[i + 1]);
      SameBare(m, rest, d[i]);
    }
  }

  lemma SameBare(m: map<string, Ruleset>, n: map<string, Ruleset>, p: string)
    requires p in m && p in n && m[p] == n[p]
    ensures IsBare(m, p) == IsBare(n, p)
  {
  }

  lemma ChainCons(m: map<string, Ruleset>, a: string, b: string, p: string, d: seq<string>)
    requires a in m && IsEmpty(m, a) && m[a].parent == Some(b) && Collapses(m - {a}, b, p, d)
    ensures Collapses(m, a, p, [a] + d)
  {
    hide IsBare;
    var rest, c := m - {a}, [a] + d;
    forall i | 0 <= i < |c|
      ensures c[i] in m && IsBare(m, c[i])
      ensures i > 0 ==> m[c[i - 1]].parent == Some(c[i])
    {
      if i > 0 {
        assert c[i] == d[i - 1];
        SameBare(m, rest, c[i]);
        assert i > 1 ==> rest[d[i - 2]].parent == Some(d[i - 1]);
      } else {
        EmptyIsBare(m, a);
      }
    }
    forall i, q | 0 <= i < |c| && q in m && m[q].parent == Some(c[i])
      ensures i > 0 && q == c[i - 1]
    {
      EmptyIsBare(m, a);
      assert i > 0 && c[i] == d[i - 1];
      assert i > 1 ==> d[i - 2] in rest && rest[d[i - 2]].parent == Some(d[i - 1]);
      if q == a {
        assert d[i - 1] == d[0];
      } else {
        assert q in rest && rest[q].parent == Some(d[i - 1]);
      }
    }
  }

  lemma EmptyIsBare(m: map<string, Ruleset>, a: string)
    requires a in m && IsEmpty(m, a)
    ensures IsBare(m, a)
    ensures forall q :: q in m ==> m[q].parent != Some(a)
  {
  }

  /** pf_remove_if_empty_ruleset reaches exactly the rulesets to which a chain of
      empty ones leads. */
  lemma {:induction false} RemovedExactly(m: map<string, Ruleset>, a: string, p: string)
    requires p in m
    ensures p !in RemoveIfEmpty(m, a) <==> exists c :: Collapses(m, a, p, c)
    decreases |m|
  {
    hide IsBare;
    if a in m && IsEmpty(m, a) {
      var rest := m - {a};
      assert |rest.Keys| < |m.Keys| by { assert rest.Keys == m.Keys - {a}; }
      EmptyIsBare(m, a);
      if a == p {
        assert Collapses(m, a, p, [a]);
        RemoveShrinks(rest, if m[a].parent.Some? then m[a].parent.value else "");
      } else if m[a].parent.Some? {
        var b := m[a].parent.value;
        RemovedExactly(rest, b, p);
        if c :| Collapses(m, a, p, c) {
          ChainTail(m, a, p, c);
        }
        if d :| Collapses(rest, b, p, d) {
          ChainCons(m, a, b, p, d);
        }
      } else if c :| Collapses(m, a, p, c) {
        ChainTail(m, a, p, c);
        assert false;
      }
    } else if c :| Collapses(m, a, p, c) {
      ChainStartsEmpty(m, a, p, c);
      assert false;
    }
  }

  lemma ChainStartsEmpty(m: map<string, Ruleset>, a: string, p: string, c: seq<string>)
    requires Collapses(m, a, p, c)
    ensures a in m && IsEmpty(m, a)
  {
    assert forall q :: q in m ==> m[q].parent != Some(c[0]);
  }

  /** `e` is a rule nobody uses, it holds the last reference to an anchor, and with
      that reference gone the emptiness goes up to `p`. */
  ghost predicate TakesAlong(w: World, e: Entry, p: string) {
    && e.id !in w.busy && e.anchor.Some? && e.anchor.value in w.sets && w.sets[e.anchor.value].refs == 1
    && exists c :: Collapses(Unreferenced(w.sets, e.anchor.value), e.anchor.value, p, c)
  }

  function Unreferenced(m: map<string, Ruleset>, a: string): map<string, Ruleset>
    requires a in m
  {
    m[a := m[a].(refs := 0)]
  }

  /** pf_rm_rule takes a ruleset along exactly then. */
  lemma TakenExactly(w: World, e: Entry, p: string)
    requires p in w.sets
    ensures p !in RmRule(w, e).sets <==> TakesAlong(w, e, p)
  {
    hide IsBare, RemoveIfEmpty;
    if e.anchor.Some? && e.anchor.value in w.sets && w.sets[e.anchor.value].refs == 1 {
      var a := e.anchor.value;
      RemovedExactly(Unreferenced(w.sets, a), a, p);
    }
  }

  /** DIOCCHANGERULE loses its ruleset exactly when it removes, under the right
      ticket, a rule that takes the ruleset along once it is off the list. */
  lemma ChangeLosesExactly(w: World, p: string, num: nat, how: Change, ticket: nat, nr: int, e: Entry,
                           news: seq<New>, err: bool)
    requires Sized(w.sets)
    ensures ChangeRule(w, p, num, how, ticket, nr, e, news, err).0.Lost? <==>
              && how.Remove? && Has(w.sets, p, num) && ticket == w.sets[p].lists[num].aticket
              && var list := w.sets[p].lists[num].active;
                 var k := PositionOf(list, nr);
              && k < |list|
              && TakesAlong(SetLists(w, p, num, w.sets[p].lists[num].(active := list[..k] + list[k + 1..])), list[k], p)
  {
    hide WithSkips, RemoveIfEmpty, RmRule, AddRefTo, Create, TakesAlong, Grown;
    if Has(w.sets, p, num) {
      var l := w.sets[p].lists[num];
      var k := PositionOf(l.active, nr);
      if how.Remove? && k < |l.active| {
        var w1 := SetLists(w, p, num, l.(active := l.active[..k] + l.active[k + 1..]));
        SetEvolved(w, p, num, l.(active := l.active[..k] + l.active[k + 1..]));
        TakenExactly(w1, l.active[k], p);
        RmRuleSized(w1, l.active[k]);
      } else {
        CreateGrows(w.sets, news);
        AddRefGrows(Create(w.sets, news), e.anchor);
      }
    }
  }

  lemma RmRuleSized(w: World, e: Entry)
    ensures forall p :: p in RmRule(w, e).sets ==> p in w.sets && RmRule(w, e).sets[p].lists == w.sets[p].lists
  {
    RmRuleShrinks(w, e);
  }

  // The inactive list but for its last rule is purged.
  function PurgeToLast(w: World, p: string, num: nat): World
    decreases if Has(w.sets, p, num) then |w.sets[p].lists[num].inactive| else 0
  {
    if !Has(w.sets, p, num) || |w.sets[p].lists[num].inactive| <= 1 then w
    else
      RmRuleShrinks(Popped(w, p, num), w.sets[p].lists[num].inactive[0]);
      PurgeToLast(PurgeOne(w, p, num), p, num)
  }

  /** Up to the last rule the list itself keeps the ruleset. */
  lemma {:induction false} PurgeToLastKeeps(w: World, p: string, num: nat)
    requires Sized(w.sets) && Has(w.sets, p, num) && w.sets[p].lists[num].inactive != []
    ensures var v, l := PurgeToLast(w, p, num), w.sets[p].lists[num];
            && Sized(v.sets) && p in v.sets && v.sets[p].lists[num] == l.(inactive := [l.inactive[|l.inactive| - 1]])
            && Purge(w, p, num) == Purge(v, p, num)
    decreases |w.sets[p].lists[num].inactive|
  {
    hide PurgeOne;
    var l := w.sets[p].lists[num];
    if |l.inactive| == 1 {
      assert l.inactive == [l.inactive[0]];
    } else {
      PurgeOneEffect(w, p, num);
      PurgeOneKeeps(w, p, num);
      PurgeToLastKeeps(PurgeOne(w, p, num), p, num);
    }
  }

  lemma PurgeOneKeeps(w: World, p: string, num: nat)
    requires Sized(w.sets) && Has(w.sets, p, num) && |w.sets[p].lists[num].inactive| > 1
    ensures p in PurgeOne(w, p, num).sets
  {
    hide RmRule;
    var v := Popped(w, p, num);
    RmRuleShrinks(v, w.sets[p].lists[num].inactive[0]);
    assert v.sets[p].lists[num] in v.sets[p].lists && !ListsEmpty(v.sets[p].lists[num]);
  }

  /** pf_begin_rules loses its ruleset exactly when the last rule it flushes takes it
      along: nothing else is left in it by then, the list is not open, and the rule
      is the last to call an anchor from which the emptiness goes up to it. */
  lemma BeginLosesExactly(w0: World, p: string, num: nat, news: seq<New>)
    requires Sized(w0.sets)
    ensures var w := w0.(sets := Create(w0.sets, news));
            Begin(w0, p, num, news).0.Lost? <==>
              && num < RULESET_MAX && p in w.sets && Has(w.sets, p, num) && w.sets[p].lists[num].inactive != []
              && var l, v := w.sets[p].lists[num], PurgeToLast(w, p, num);
              && Has(v.sets, p, num) && v.sets[p].lists[num].inactive != []
              && TakesAlong(Popped(v, p, num), l.inactive[|l.inactive| - 1], p)
  {
    hide Purge, PurgeToLast, RmRule, TakesAlong, Create, Grown, Evolved;
    CreateGrows(w0.sets, news);
    var w := w0.(sets := Create(w0.sets, news));
    GrownSized(w0.sets, w.sets);
    if num < RULESET_MAX && p in w.sets {
      if w.sets[p].lists[num].inactive == [] {
        PurgeNothing(w, p, num);
      } else {
        var l, v := w.sets[p].lists[num], PurgeToLast(w, p, num);
        PurgeToLastKeeps(w, p, num);
        TakenExactly(Popped(v, p, num), l.inactive[|l.inactive| - 1], p);
        PurgeLast(v, p, num);
      }
    }
  }

  lemma PurgeNothing(w: World, p: string, num: nat)
    requires Has(w.sets, p, num) && w.sets[p].lists[num].inactive == []
    ensures Purge(w, p, num) == w
  {
  }

  lemma PurgeLast(v: World, p: string, num: nat)
    requires Sized(v.sets) && Has(v.sets, p, num) && |v.sets[p].lists[num].inactive| == 1
    ensures Purge(v, p, num) == RmRule(Popped(v, p, num), v.sets[p].lists[num].inactive[0])
    ensures Has(Purge(v, p, num).sets, p, num) <==> p in Purge(v, p, num).sets
  {
    hide RmRule;
    PurgeOneEffect(v, p, num);
    assert Purge(v, p, num) == Purge(PurgeOne(v, p, num), p, num);
  }

  // ------------------------------------------------------------- how to get there

  // The main ruleset and one anchor "p" with one list in use.
  function WithOne(l: Lists, refs: nat): World {
    var p := EmptyRuleset(None);
    World(map["" := EmptyRuleset(None), "p" := p.(lists := p.lists[1 := l], refs := refs)], {}, [])
  }

  // A rule that calls the anchor "p".
  function SelfCall(body: Rule): Entry { Entry(7, body.(nr := 0), Some("p")) }

  // What pf_find_or_create_ruleset makes for it the first time.
  const NEW_P := [New("p", None)]

  lemma FirstBegin()
    ensures Begin(INITIAL, "p", 1, NEW_P) == (Done(1), WithOne(Lists([], [], 0, 1, true), 0))
  {
    var m := Create(INITIAL.sets, NEW_P);
    assert NEW_P[1..] == [];
    assert Create(m, []) == m && m == map["" := EmptyRuleset(None), "p" := EmptyRuleset(None)];
    var w := INITIAL.(sets := m);
    assert Purge(w, "p", 1) == w;
    var after := WithOne(Lists([], [], 0, 1, true), 0);
    var w1 := SetLists(w, "p", 1, Lists([], [], 0, 1, true));
    assert w1.sets["p"] == after.sets["p"];
    assert w1.sets == after.sets;
  }

  lemma AddSelfCall(body: Rule, open: bool)
    ensures Add(WithOne(Lists([], [], 0, 1, open), 0), "p", 1, 1, SelfCall(body), [], false)
            == (true, WithOne(Lists([], [SelfCall(body)], 0, 1, open), 1))
  {
    var w := WithOne(Lists([], [], 0, 1, open), 0);
    assert Create(w.sets, []) == w.sets;
    var e := SelfCall(body);
    assert e.(body := e.body.(nr := 0)) == e && [] + [e] == [e];
    var after := WithOne(Lists([], [e], 0, 1, open), 1);
    assert Add(w, "p", 1, 1, e, [], false).1.sets["p"] == after.sets["p"];
    assert Add(w, "p", 1, 1, e, [], false).1.sets == after.sets;
  }

  lemma OnlyCallTakesAlong(w: World, e: Entry)
    requires w.sets.Keys == {"", "p"} && IsBare(Unreferenced(w.sets, "p"), "p")
    requires w.sets["p"].refs == 1 && w.sets["p"].parent == None && w.sets[""].parent == None
    requires e.anchor == Some("p") && e.id !in w.busy
    ensures TakesAlong(w, e, "p")
  {
    assert Collapses(Unreferenced(w.sets, "p"), "p", "p", ["p"]);
  }

  /** Begin a load of anchor p, add one rule that calls p, commit, and remove the
      rule: the removal loses the ruleset. */
  lemma RemovalOfSelfCallLoses(body: Rule)
    ensures var w := Step(Step(Step(INITIAL, BeginOp("p", 1, NEW_P)), AddOp("p", 1, 1, SelfCall(body), [], false)),
                          CommitOp("p", 1, 1));
            Loses(w, ChangeOp("p", 1, Remove, 1, 0, SelfCall(body), [], false))
  {
    hide Create, Add, Begin, ChangeRule, WithSkips, Purge, TakesAlong;
    var e := SelfCall(body);
    FirstBegin();
    AddSelfCall(body, true);
    var w2, list := WithOne(Lists([], [e], 0, 1, true), 1), WithSkips([e]);
    var w3 := WithOne(Lists(list, [], 1, 1, false), 1);
    assert Commit(w2, "p", 1, 1) == Some(w3) by { CommitSelfCall(e); }
    assert list[0].id == 7 && list[0].anchor == Some("p") && list[0].body.nr == 0 by { SkipsKeep(e); }
    assert Sized(w3.sets) && PositionOf(list, 0) == 0;
    assert list[..0] + list[1..] == [];
    OnlyCallTakesAlong(SetLists(w3, "p", 1, Lists([], [], 1, 1, false)), list[0]);
    ChangeLosesExactly(w3, "p", 1, Remove, 1, 0, e, [], false);
  }

  lemma SkipsKeep(e: Entry)
    ensures WithSkips([e])[0].id == e.id && WithSkips([e])[0].anchor == e.anchor
    ensures WithSkips([e])[0].body.nr == e.body.nr
  {
  }

  lemma CommitSelfCall(e: Entry)
    ensures Commit(WithOne(Lists([], [e], 0, 1, true), 1), "p", 1, 1)
            == Some(WithOne(Lists(WithSkips([e]), [], 1, 1, false), 1))
  {
    hide WithSkips;
    var w := WithOne(Lists([], [e], 0, 1, true), 1);
    var l1 := Lists(WithSkips([e]), [], 1, 1, true);
    var w1 := SetLists(w, "p", 1, l1);
    assert Purge(w1, "p", 1) == w1;
    var w2 := SetLists(w1, "p", 1, l1.(open := false));
    assert w2.sets["p"].refs == 1;
    assert RemoveIfEmpty(w2.sets, "p") == w2.sets;
    assert w2.sets["p"] == WithOne(Lists(WithSkips([e]), [], 1, 1, false), 1).sets["p"];
    assert w2.sets == WithOne(Lists(WithSkips([e]), [], 1, 1, false), 1).sets;
  }

  /** Begin a load of anchor p, roll it back, add a rule that calls p under the old
      ticket, which nothing forbids, and begin again: that loses the ruleset. */
  lemma BeginAfterLateAddLoses(body: Rule)
    ensures var w := Step(Step(Step(INITIAL, BeginOp("p", 1, NEW_P)), RollbackOp("p", 1, 1)),
                          AddOp("p", 1, 1, SelfCall(body), [], false));
            Loses(w, BeginOp("p", 1, []))
  {
    hide Create, Add, Begin, WithSkips, TakesAlong;
    var e := SelfCall(body);
    FirstBegin();
    assert Rollback(WithOne(Lists([], [], 0, 1, true), 0), "p", 1, 1) == WithOne(Lists([], [], 0, 1, false), 0) by {
      RollbackEmpty();
    }
    AddSelfCall(body, false);
    var w := WithOne(Lists([], [e], 0, 1, false), 1);
    assert w.(sets := Create(w.sets, [])) == w by { CreateNone(w.sets); }
    assert PurgeToLast(w, "p", 1) == w;
    OnlyCallTakesAlong(Popped(w, "p", 1), e);
    BeginLosesExactly(w, "p", 1, []);
  }

  lemma CreateNone(m: map<string, Ruleset>)
    ensures Create(m, []) == m
  {
  }

  lemma RollbackEmpty()
    ensures Rollback(WithOne(Lists([], [], 0, 1, true), 0), "p", 1, 1) == WithOne(Lists([], [], 0, 1, false), 0)
  {
    var w := WithOne(Lists([], [], 0, 1, true), 0);
    assert Purge(w, "p", 1) == w;
    var after := WithOne(Lists([], [], 0, 1, false), 0);
    assert Rollback(w, "p", 1, 1).sets["p"] == after.sets["p"];
    assert Rollback(w, "p", 1, 1).sets == after.sets;
  }
}
