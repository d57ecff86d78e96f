/** DIOCXCOMMIT, the two-phase commit of several lists, and the requests of
    Rulesets carried out in place. */
module RulesetLoader {
  import opened Options
  import opened PfRules
  import opened Rulesets

  // ----------------------------------------------------------- two-phase commit

  datatype Item = Item(p: string, num: nat, ticket: nat)

  predicate AllOpen(m: map<string, Ruleset>, items: seq<Item>) {
    forall x | x in items :: IsOpen(m, x.p, x.num, x.ticket)
  }

  predicate SameList(x: Item, y: Item) { x.p == y.p && x.num == y.num }

  ghost predicate Distinct(items: seq<Item>) {
    forall i, j :: 0 <= i < j < |items| ==> !SameList(items[i], items[j])
  }

  // The second pass: stops at the first commit that is refused.
  function CommitAll(w: World, items: seq<Item>): (bool, World)
    decreases |items|
  {
    if items == [] then (true, w)
    else
      var r := Commit(w, items[0].p, items[0].num, items[0].ticket);
      if r == None then (false, w) else CommitAll(r.value, items[1..])
  }

  // DIOCXCOMMIT
  function XCommit(w: World, items: seq<Item>): (bool, World) {
    if AllOpen(w.sets, items) then CommitAll(w, items) else (false, w)
  }

  // A commit leaves every other open list open, and as it was.
  lemma CommitKeepsOpen(w: World, x: Item, y: Item)
    requires Sized(w.sets) && IsOpen(w.sets, x.p, x.num, x.ticket)
    requires IsOpen(w.sets, y.p, y.num, y.ticket) && !SameList(x, y)
    ensures Commit(w, x.p, x.num, x.ticket).Some?
    ensures var n := Commit(w, x.p, x.num, x.ticket).value.sets;
            IsOpen(n, y.p, y.num, y.ticket) && n[y.p].lists[y.num] == w.sets[y.p].lists[y.num]
  {
    hide Commit;
    CommitEffect(w, x.p, x.num, x.ticket);
  }

  // ... and closes its own, so that no ticket commits it again.
  lemma CommitCloses(w: World, x: Item, y: Item)
    requires Sized(w.sets) && IsOpen(w.sets, x.p, x.num, x.ticket) && SameList(x, y)
    ensures Commit(w, x.p, x.num, x.ticket).Some?
    ensures !IsOpen(Commit(w, x.p, x.num, x.ticket).value.sets, y.p, y.num, y.ticket)
    ensures ActiveAt(Commit(w, x.p, x.num, x.ticket).value.sets, x.p, x.num)
            == WithSkips(w.sets[x.p].lists[x.num].inactive)
  {
    hide Commit, WithSkips;
    CommitEffect(w, x.p, x.num, x.ticket);
    assert |WithSkips(w.sets[x.p].lists[x.num].inactive)| == |w.sets[x.p].lists[x.num].inactive|;
  }

  // A list that is not open stays so, and a commit cannot get past it.
  lemma {:induction false} ClosedStopsCommit(w: World, items: seq<Item>, y: Item)
    requires Sized(w.sets) && y in items
    requires !exists t :: IsOpen(w.sets, y.p, y.num, t)
    ensures !CommitAll(w, items).0
    decreases |items|
  {
    hide Commit, Evolved;
    var x := items[0];
    if IsOpen(w.sets, x.p, x.num, x.ticket) {
      CommitEffect(w, x.p, x.num, x.ticket);
      var w1 := Commit(w, x.p, x.num, x.ticket).value;
      EvolvedSized(w.sets, w1.sets, x.p, x.num);
      assert y in items[1..] by { assert items == [x] + items[1..]; }
      forall t
        ensures !IsOpen(w1.sets, y.p, y.num, t)
      {
        if SameList(x, y) {
          CommitCloses(w, x, y.(ticket := t));
        } else {
          assert !IsOpen(w.sets, y.p, y.num, t);
          if Has(w1.sets, y.p, y.num) {
            EvolvedList(w.sets, w1.sets, x.p, x.num, y.p, y.num);
          }
        }
      }
      ClosedStopsCommit(w1, items[1..], y);
    } else {
      assert Commit(w, x.p, x.num, x.ticket) == None by { CommitNeedsOpen(w, x); }
    }
  }

  lemma CommitNeedsOpen(w: World, x: Item)
    requires !IsOpen(w.sets, x.p, x.num, x.ticket)
    ensures Commit(w, x.p, x.num, x.ticket) == None
  {
  }

  lemma EvolvedList(m: map<string, Ruleset>, n: map<string, Ruleset>, p: string, num: nat, q: string, k: nat)
    requires Evolved(m, n, p, num) && Has(n, q, k) && (q, k) != (p, num)
    ensures Has(m, q, k) && n[q].lists[k] == m[q].lists[k]
  {
  }

  /** The second pass on lists that are all open: it goes through if and only if no
      list is named twice. */
  lemma {:induction false} CommitAllSucceedsExactly(w: World, items: seq<Item>)
    requires Sized(w.sets) && AllOpen(w.sets, items)
    ensures CommitAll(w, items).0 <==> Distinct(items)
    decreases |items|
  {
    hide Commit, Evolved, IsOpen;
    if items != [] {
      var x, rest := items[0], items[1..];
      assert x in items && IsOpen(w.sets, x.p, x.num, x.ticket);
      CommitEffect(w, x.p, x.num, x.ticket);
      var w1 := Commit(w, x.p, x.num, x.ticket).value;
      EvolvedSized(w.sets, w1.sets, x.p, x.num);
      if y :| y in rest && SameList(x, y) {
        forall t
          ensures !IsOpen(w1.sets, y.p, y.num, t)
        {
          CommitCloses(w, x, y.(ticket := t));
        }
        ClosedStopsCommit(w1, rest, y);
        var j :| 0 <= j < |rest| && rest[j] == y;
        assert SameList(items[0], items[j + 1]);
      } else {
        forall y | y in rest
          ensures IsOpen(w1.sets, y.p, y.num, y.ticket)
        {
          assert y in items;
          CommitKeepsOpen(w, x, y);
        }
        CommitAllSucceedsExactly(w1, rest);
        DistinctCons(items);
      }
    }
  }

  lemma DistinctCons(items: seq<Item>)
    requires items != [] && forall y :: y in items[1..] ==> !SameList(items[0], y)
    ensures Distinct(items) <==> Distinct(items[1..])
  {
  }

  ghost predicate Named(items: seq<Item>, q: string, k: nat) {
    exists i :: 0 <= i < |items| && items[i].p == q && items[i].num == k
  }

  lemma NamedCons(items: seq<Item>, q: string, k: nat)
    requires items != [] && Distinct(items)
    ensures Distinct(items[1..])
    ensures Named(items, q, k) <==> (items[0].p == q && items[0].num == k) || Named(items[1..], q, k)
    ensures items[0].p == q && items[0].num == k ==> !Named(items[1..], q, k)
    ensures forall y :: y in items[1..] ==> y in items && !SameList(items[0], y)
  {
  }

  /** The second pass makes each inactive list named active, and touches no other. */
  lemma {:induction false} CommitAllLoads(w: World, items: seq<Item>, q: string, k: nat)
    requires Sized(w.sets) && AllOpen(w.sets, items) && Distinct(items)
    ensures var n := CommitAll(w, items).1.sets;
            && (Named(items, q, k) ==> Has(w.sets, q, k) && ActiveAt(n, q, k) == WithSkips(w.sets[q].lists[k].inactive))
            && (!Named(items, q, k) ==> ActiveAt(n, q, k) == ActiveAt(w.sets, q, k))
    decreases |items|
  {
    hide Commit, Evolved, ActiveAt, WithSkips, Named, Distinct;
    if items == [] {
      NamedNil(q, k);
    } else {
      var x, rest := items[0], items[1..];
      assert x in items && IsOpen(w.sets, x.p, x.num, x.ticket);
      CommitEffect(w, x.p, x.num, x.ticket);
      var w1 := Commit(w, x.p, x.num, x.ticket).value;
      EvolvedSized(w.sets, w1.sets, x.p, x.num);
      NamedCons(items, q, k);
      forall y | y in rest
        ensures IsOpen(w1.sets, y.p, y.num, y.ticket)
      {
        CommitKeepsOpen(w, x, y);
      }
      CommitAllLoads(w1, rest, q, k);
      if x.p == q && x.num == k {
        CommitCloses(w, x, x);
      } else {
        CommitTouches(w, x.p, x.num, x.ticket, q, k);
        if Named(rest, q, k) {
          EvolvedList(w.sets, w1.sets, x.p, x.num, q, k);
        }
      }
    }
  }

  lemma NamedNil(q: string, k: nat)
    ensures !Named([], q, k)
  {
  }

  /** DIOCXCOMMIT on entries for pairwise distinct lists is all or nothing: it is
      refused, with nothing changed, unless every ticket is that of an open load;
      otherwise no commit of the second pass fails, every list named gets exactly
      the rules loaded for it, and no other active list changes. */
  lemma XCommitAllOrNothing(w: World, items: seq<Item>, q: string, k: nat)
    requires Sized(w.sets) && Distinct(items)
    ensures var (ok, w1) := XCommit(w, items);
            && (ok <==> AllOpen(w.sets, items))
            && (!ok ==> w1 == w)
            && (ok && Named(items, q, k) ==>
                Has(w.sets, q, k) && ActiveAt(w1.sets, q, k) == WithSkips(w.sets[q].lists[k].inactive))
            && (!Named(items, q, k) ==> ActiveAt(w1.sets, q, k) == ActiveAt(w.sets, q, k))
  {
    if AllOpen(w.sets, items) {
      CommitAllSucceedsExactly(w, items);
      CommitAllLoads(w, items, q, k);
    }
  }

  /** ... and what each list gets is what its loader has added since its begin. */
  lemma XCommitLoadsWhatWasAdded(w: World, t: Loads, items: seq<Item>, q: string, k: nat)
    requires Inv(w, t) && Distinct(items) && AllOpen(w.sets, items) && Named(items, q, k)
    ensures (q, k) in t
    ensures var active := ActiveAt(XCommit(w, items).1.sets, q, k);
            GivenAll(active) == t[(q, k)].1 && ActiveOk(active)
  {
    hide ActiveOk, WithSkips, ActiveAt;
    XCommitAllOrNothing(w, items, q, k);
    var i :| 0 <= i < |items| && items[i].p == q && items[i].num == k;
    assert items[i] in items && IsOpen(w.sets, q, k, items[i].ticket);
    assert ListOk(w.sets[q].lists[k], t, (q, k));
    WithSkipsOk(w.sets[q].lists[k].inactive);
  }

  // ------------------------------------------------------------------ in place

  method SkipSteps(list: seq<Entry>) returns (r: seq<Entry>)
    ensures r == WithSkips(list)
  {
    var rules := new Rule[|list|](k requires 0 <= k < |list| => list[k].body.(skip := seq(SKIP_COUNT, _ => None)));
    CalcSkipSteps(rules);
    r := seq(|list|, k requires 0 <= k < |list| reads rules requires rules.Length == |list| =>
      list[k].(body := rules[k]));
    assert r == WithSkips(list) by { SkipStepsAre(list, rules[..], r); }
  }

  lemma SkipStepsAre(list: seq<Entry>, rules: seq<Rule>, r: seq<Entry>)
    requires |rules| == |list| == |r| && SkipsSet(rules) && SameButSkips(rules, Bodies(list))
    requires forall k :: 0 <= k < |r| ==> r[k] == list[k].(body := rules[k])
    ensures r == WithSkips(list)
  {
    var w, b := WithSkips(list), Bodies(list);
    forall k | 0 <= k < |list|
      ensures r[k] == w[k]
    {
      forall i | 0 <= i < SKIP_COUNT
        ensures rules[k].skip[i] == w[k].body.skip[i]
      {
        SkipTargetSameButSkips(rules, b, k, i);
      }
      assert rules[k].skip == w[k].body.skip;
    }
  }

  /** The rulesets of the packet filter, and the requests that load them. */
  class Store {
    var sets: map<string, Ruleset>
    var busy: set<nat>
    var detached: seq<Entry>

    ghost function Contents(): World
      reads this
    {
      World(sets, busy, detached)
    }

    ghost predicate Valid()
      reads this
    {
      Sized(sets)
    }

    constructor ()
      ensures Valid() && Contents() == INITIAL
    {
      sets, busy, detached := map["" := EmptyRuleset(None)], {}, [];
    }

    method RemoveIfEmptyRuleset(p: string)
      modifies this`sets
      ensures sets == RemoveIfEmpty(old(sets), p)
    {
      var cur := Some(p);
      while cur.Some?
        invariant RemoveIfEmpty(old(sets), p) == if cur.Some? then RemoveIfEmpty(sets, cur.value) else sets
        decreases |sets|
      {
        var at := cur.value;
        if at !in sets {
          return;
        }
        var rs := sets[at];
        if || at == "" || (exists q | q in sets :: sets[q].parent == Some(at))
           || rs.refs > 0 || rs.tables > 0 || rs.topen
        {
          return;
        }
        for i := 0 to |rs.lists|
          invariant forall j :: 0 <= j < i ==> ListsEmpty(rs.lists[j])
        {
          if rs.lists[i].active != [] || rs.lists[i].inactive != [] || rs.lists[i].open {
            assert rs.lists[i] in rs.lists;
            return;
          }
        }
        assert (sets - {at}).Keys == sets.Keys - {at};
        sets, cur := sets - {at}, rs.parent;
      }
    }

    method AnchorRemove(anchor: Option<string>)
      modifies this`sets
      ensures sets == DropAnchor(old(sets), anchor)
    {
      if anchor == None || anchor.value !in sets || sets[anchor.value].refs == 0 {
        return;
      }
      var a := anchor.value;
      sets := sets[a := sets[a].(refs := sets[a].refs - 1)];
      if sets[a].refs == 0 {
        RemoveIfEmptyRuleset(a);
      }
    }

    method RmRule(e: Entry)
      modifies this`sets, this`detached
      ensures Contents() == Rulesets.RmRule(old(Contents()), e)
    {
      if e.id in busy {
        detached := detached + [e.(body := e.body.(nr := -1))];
      } else {
        AnchorRemove(e.anchor);
      }
    }

    method Update(p: string, num: nat, l: Lists)
      requires Has(sets, p, num)
      modifies this`sets
      ensures Contents() == SetLists(old(Contents()), p, num, l)
    {
      sets := sets[p := sets[p].(lists := sets[p].lists[num := l])];
    }

    method PurgeInactive(p: string, num: nat)
      modifies this`sets, this`detached
      ensures Contents() == Purge(old(Contents()), p, num)
    {
      while Has(sets, p, num) && sets[p].lists[num].inactive != []
        invariant Purge(Contents(), p, num) == Purge(old(Contents()), p, num)
        invariant busy == old(busy)
        decreases if Has(sets, p, num) then |sets[p].lists[num].inactive| else 0
      {
        ghost var before := Contents();
        var l := sets[p].lists[num];
        RmRuleShrinks(Popped(before, p, num), l.inactive[0]);
        Update(p, num, l.(inactive := l.inactive[1..]));
        RmRule(l.inactive[0]);
        assert Contents() == PurgeOne(before, p, num);
      }
    }

    // Lost is where the loop of the source goes on with a ruleset that is freed.
    method BeginRules(p: string, num: nat, news: seq<New>) returns (reply: Reply)
      requires Valid()
      modifies this`sets, this`detached
      ensures Valid() && (reply, Contents()) == Begin(old(Contents()), p, num, news)
    {
      hide Purge, Create;
      BeginEffect(Contents(), p, num, news);
      if num >= RULESET_MAX {
        return Refused;
      }
      sets := Create(sets, news);
      if !Has(sets, p, num) {
        return Refused;
      }
      PurgeInactive(p, num);
      if !Has(sets, p, num) {
        return Lost;
      }
      var l := sets[p].lists[num];
      var t := NextTicket(l.iticket);
      Update(p, num, l.(iticket := t, open := true));
      reply := Done(t);
    }

    method RollbackRules(p: string, num: nat, ticket: nat)
      modifies this`sets, this`detached
      ensures Contents() == Rollback(old(Contents()), p, num, ticket)
    {
      hide Purge;
      if !IsOpen(sets, p, num, ticket) {
        return;
      }
      PurgeInactive(p, num);
      if Has(sets, p, num) {
        Update(p, num, sets[p].lists[num].(open := false));
      }
    }

    method CommitRules(p: string, num: nat, ticket: nat) returns (ok: bool)
      modifies this`sets, this`detached
      ensures var r := Commit(old(Contents()), p, num, ticket);
              ok == r.Some? && Contents() == if ok then r.value else old(Contents())
    {
      hide Purge, WithSkips, RemoveIfEmpty;
      if !IsOpen(sets, p, num, ticket) {
        return false;
      }
      var l := sets[p].lists[num];
      var rules := SkipSteps(l.inactive);
      Update(p, num, Lists(rules, l.active, l.iticket, l.iticket, true));
      PurgeInactive(p, num);
      if Has(sets, p, num) {
        Update(p, num, sets[p].lists[num].(open := false));
        RemoveIfEmptyRuleset(p);
      }
      ok := true;
    }

    method XCommitAll(items: seq<Item>) returns (ok: bool)
      modifies this`sets, this`detached
      ensures (ok, Contents()) == XCommit(old(Contents()), items)
    {
      hide Commit, IsOpen;
      for i := 0 to |items|
        invariant forall x :: x in items[..i] ==> IsOpen(sets, x.p, x.num, x.ticket)
      {
        if !IsOpen(sets, items[i].p, items[i].num, items[i].ticket) {
          assert items[i] in items;
          return false;
        }
      }
      assert items[..|items|] == items;
      for i := 0 to |items|
        invariant CommitAll(old(Contents()), items) == CommitAll(Contents(), items[i..])
      {
        var done := CommitRules(items[i].p, items[i].num, items[i].ticket);
        if !done {
          return false;
        }
        assert items[i..][1..] == items[i + 1..];
      }
      ok := true;
    }

    // pf_anchor_setup for a rule that goes into a list: new rulesets, and one reference.
    method SetUpAnchor(news: seq<New>, anchor: Option<string>)
      modifies this`sets
      ensures sets == AddRefTo(Create(old(sets), news), anchor)
    {
      sets := Create(sets, news);
      if anchor.Some? && anchor.value in sets {
        sets := sets[anchor.value := sets[anchor.value].(refs := sets[anchor.value].refs + 1)];
      }
    }

    method AddRule(p: string, num: nat, ticket: nat, e: Entry, news: seq<New>, err: bool) returns (ok: bool)
      requires Valid()
      modifies this`sets
      ensures (ok, Contents()) == Add(old(Contents()), p, num, ticket, e, news, err)
    {
      hide Create, AddRefTo, Grown;
      if num >= RULESET_MAX || !Has(sets, p, num) || sets[p].lists[num].iticket != ticket {
        return false;
      }
      var inactive := sets[p].lists[num].inactive;
      var nr := if inactive == [] then 0 else inactive[|inactive| - 1].body.nr + 1;
      CreatedActive(sets, news, e.anchor, p, num);
      GrownKeeps(sets, AddRefTo(Create(sets, news), e.anchor), p, num);
      SetUpAnchor(news, e.anchor);
      if err {
        AnchorRemove(e.anchor);
        return false;
      }
      Update(p, num, sets[p].lists[num].(inactive := inactive + [e.(body := e.body.(nr := nr))]));
      ok := true;
    }

    // A rule taken off is freed; then come the new numbers, ticket, skip pointers and
    // the clean-up. Lost is where the source goes on with a ruleset that is freed.
    method InstallList(p: string, num: nat, list: seq<Entry>, gone: Option<Entry>) returns (reply: Reply)
      requires Has(sets, p, num)
      modifies this`sets, this`detached
      ensures (reply, Contents()) == Install(old(Contents()), p, num, list, gone)
    {
      hide WithSkips, RemoveIfEmpty, DropAnchor;
      Update(p, num, sets[p].lists[num].(active := list));
      if gone.Some? {
        RmRule(gone.value);
      }
      if !Has(sets, p, num) {
        return Lost;
      }
      var l := sets[p].lists[num];
      var numbered := Renumber(l.active);
      var rules := SkipSteps(numbered);
      Update(p, num, l.(active := rules, aticket := NextTicket(l.aticket)));
      RemoveIfEmptyRuleset(p);
      reply := Done(l.aticket);
    }

    method Renumber(list: seq<Entry>) returns (numbered: seq<Entry>)
      ensures numbered == Numbered(list)
    {
      numbered := list;
      for nr := 0 to |list|
        invariant |numbered| == |list|
        invariant forall k :: 0 <= k < nr ==> numbered[k] == list[k].(body := list[k].body.(nr := k))
        invariant forall k :: nr <= k < |list| ==> numbered[k] == list[k]
      {
        numbered := numbered[nr := numbered[nr].(body := numbered[nr].body.(nr := nr))];
      }
      assert numbered == Numbered(list);
    }

    // The search for the rule named, and the list with the change made.
    method NewList(active: seq<Entry>, how: Change, nr: int, e: Entry) returns (k: nat, list: Option<seq<Entry>>)
      requires !how.GetTicket?
      ensures list == Changed(active, how, nr, e)
      ensures list.Some? && how.Remove? ==> k == PositionOf(active, nr) && k < |active|
    {
      k := 0;
      if how.AddHead? {
        return 0, Some([e] + active);
      } else if how.AddTail? {
        return 0, Some(active + [e]);
      }
      while k < |active| && active[k].body.nr != nr
        invariant k <= |active|
        invariant PositionOf(active, nr) == k + PositionOf(active[k..], nr)
      {
        assert active[k..][1..] == active[k + 1..];
        k := k + 1;
      }
      assert PositionOf(active, nr) == k;
      if k == |active| {
        return k, None;
      }
      if how.AddBefore? {
        list := Some(active[..k] + [e] + active[k..]);
      } else if how.AddAfter? {
        list := Some(active[..k + 1] + [e] + active[k + 1..]);
      } else {
        list := Some(active[..k] + active[k + 1..]);
      }
    }

    method ChangeActiveRule(p: string, num: nat, how: Change, ticket: nat, nr: int, e: Entry,
                            news: seq<New>, err: bool) returns (reply: Reply)
      requires Valid()
      modifies this`sets, this`detached
      ensures (reply, Contents()) == ChangeRule(old(Contents()), p, num, how, ticket, nr, e, news, err)
    {
      hide Create, AddRefTo, Grown, Install, Changed;
      if num >= RULESET_MAX || !Has(sets, p, num) {
        return Refused;
      }
      var l := sets[p].lists[num];
      if how.GetTicket? {
        Update(p, num, l.(aticket := NextTicket(l.aticket)));
        return Done(NextTicket(l.aticket));
      }
      if ticket != l.aticket {
        return Refused;
      }
      if !how.Remove? {
        CreatedActive(sets, news, e.anchor, p, num);
        GrownKeeps(sets, AddRefTo(Create(sets, news), e.anchor), p, num);
        SetUpAnchor(news, e.anchor);
        if err {
          AnchorRemove(e.anchor);
          return Refused;
        }
      }
      var k, list := NewList(l.active, how, nr, e);
      if list == None {
        if !how.Remove? {
          AnchorRemove(e.anchor);
        }
        return Refused;
      }
      reply := InstallList(p, num, list.value, if how.Remove? then Some(l.active[k]) else None);
    }
  }
}
