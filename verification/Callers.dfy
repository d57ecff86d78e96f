/** What the reference count of a ruleset counts: the rules that call it, on any active
    or inactive list or unlinked but still in use. */
module Callers {
  import opened Options
  import opened Rulesets

  // -------------------------------------------------------------------- counting

  // The rules of a list that call anchor a.
  function Calls(list: seq<Entry>, a: string): nat {
    if list == [] then 0 else (if list[0].anchor == Some(a) then 1 else 0) + Calls(list[1..], a)
  }

  function Held(l: Lists, a: string): nat { Calls(l.active, a) + Calls(l.inactive, a) }

  function CallsIn(lists: seq<Lists>, a: string): nat {
    if lists == [] then 0 else Held(lists[0], a) + CallsIn(lists[1..], a)
  }

  ghost function Total(m: map<string, Ruleset>, a: string): nat
    decreases |m|
  {
    if m == map[] then 0
    else
      var p :| p in m;
      assert |(m - {p}).Keys| < |m.Keys| by { assert (m - {p}).Keys == m.Keys - {p}; }
      CallsIn(m[p].lists, a) + Total(m - {p}, a)
  }

  lemma {:induction false} CallsConcat(x: seq<Entry>, y: seq<Entry>, a: string)
    ensures Calls(x + y, a) == Calls(x, a) + Calls(y, a)
  {
    if x == [] {
      assert x + y == y;
    } else {
      assert (x + y)[1..] == x[1..] + y;
      CallsConcat(x[1..], y, a);
    }
  }

  lemma CallsOne(e: Entry, a: string)
    ensures Calls([e], a) == if e.anchor == Some(a) then 1 else 0
  {
  }

  // Numbers and skip pointers do not matter.
  lemma {:induction false} CallsSame(x: seq<Entry>, y: seq<Entry>, a: string)
    requires |x| == |y| && forall k :: 0 <= k < |x| ==> x[k].anchor == y[k].anchor
    ensures Calls(x, a) == Calls(y, a)
  {
    if x != [] {
      CallsSame(x[1..], y[1..], a);
    }
  }

  lemma {:induction false} CallsInUpdate(lists: seq<Lists>, num: nat, l: Lists, a: string)
    requires num < |lists|
    ensures CallsIn(lists[num := l], a) + Held(lists[num], a) == CallsIn(lists, a) + Held(l, a)
  {
    if num > 0 {
      assert lists[num := l][1..] == lists[1..][num - 1 := l];
      CallsInUpdate(lists[1..], num - 1, l, a);
    } else {
      assert lists[0 := l][1..] == lists[1..];
    }
  }

  lemma {:induction false} CallsInNone(lists: seq<Lists>, a: string)
    requires forall k :: 0 <= k < |lists| ==> lists[k].active == [] && lists[k].inactive == []
    ensures CallsIn(lists, a) == 0
  {
    if lists != [] {
      CallsInNone(lists[1..], a);
    }
  }

  // The total does not depend on the order in which rulesets are taken.
  lemma {:induction false} TotalRemove(m: map<string, Ruleset>, p: string, a: string)
    requires p in m
    ensures Total(m, a) == CallsIn(m[p].lists, a) + Total(m - {p}, a)
    decreases |m|
  {
    var q :| q in m && Total(m, a) == CallsIn(m[q].lists, a) + Total(m - {q}, a);
    if q != p {
      Smaller(m, q);
      Smaller(m, p);
      TotalRemove(m - {q}, p, a);
      TotalRemove(m - {p}, q, a);
      assert m - {q} - {p} == m - {p} - {q};
    }
  }

  lemma Smaller(m: map<string, Ruleset>, p: string)
    requires p in m
    ensures |m - {p}| < |m|
  {
    assert (m - {p}).Keys == m.Keys - {p};
    assert |(m - {p}).Keys| < |m.Keys|;
  }

  lemma TotalUpdate(m: map<string, Ruleset>, p: string, r: Ruleset, a: string)
    ensures Total(m[p := r], a) == Total(m - {p}, a) + CallsIn(r.lists, a)
  {
    TotalRemove(m[p := r], p, a);
    assert m[p := r] - {p} == m - {p};
  }

  lemma TotalWithout(m: map<string, Ruleset>, p: string, a: string)
    ensures Total(m, a) == Total(m - {p}, a) + if p in m then CallsIn(m[p].lists, a) else 0
  {
    if p in m {
      TotalRemove(m, p, a);
    } else {
      assert m - {p} == m;
    }
  }

  // ------------------------------------------------------------------- invariant

  function RefsOf(m: map<string, Ruleset>, a: string): nat { if a in m then m[a].refs else 0 }

  /** Each ruleset's `refs` is the number of rules that call it, and no rule calls one
      that is not there; `loose` are rules that a request holds off all lists. */
  ghost predicate Counted(m: map<string, Ruleset>, detached: seq<Entry>, loose: seq<Entry>) {
    forall a :: Total(m, a) + Calls(detached, a) + Calls(loose, a) == RefsOf(m, a)
  }

  ghost predicate RefsAreCallers(w: World) { Counted(w.sets, w.detached, []) }

  // ----------------------------------------------------------------- small steps

  // Lists of (p, num) change, and what is loose with them.
  lemma ListsCounted(w: World, p: string, num: nat, l: Lists, loose: seq<Entry>, loose1: seq<Entry>)
    requires Has(w.sets, p, num) && Counted(w.sets, w.detached, loose)
    requires forall a :: Held(l, a) + Calls(loose1, a) == Held(w.sets[p].lists[num], a) + Calls(loose, a)
    ensures Counted(SetLists(w, p, num, l).sets, w.detached, loose1)
  {
    hide Held, Calls, CallsIn, Total;
    var r := w.sets[p].(lists := w.sets[p].lists[num := l]);
    forall a
      ensures Total(w.sets[p := r], a) + Calls(w.detached, a) + Calls(loose1, a) == RefsOf(w.sets[p := r], a)
    {
      TotalUpdate(w.sets, p, r, a);
      TotalWithout(w.sets, p, a);
      CallsInUpdate(w.sets[p].lists, num, l, a);
    }
  }

  lemma {:induction false} RemoveCounted(m: map<string, Ruleset>, p: string, detached: seq<Entry>, loose: seq<Entry>)
    requires Counted(m, detached, loose)
    ensures Counted(RemoveIfEmpty(m, p), detached, loose)
    decreases |m|
  {
    hide Calls, CallsIn, Total;
    if p in m && IsEmpty(m, p) {
      var rest := m - {p};
      Smaller(m, p);
      forall a
        ensures Total(rest, a) + Calls(detached, a) + Calls(loose, a) == RefsOf(rest, a)
      {
        TotalRemove(m, p, a);
        BareCallsNone(m, p, a);
      }
      if m[p].parent.Some? {
        RemoveCounted(rest, m[p].parent.value, detached, loose);
      }
    }
  }

  lemma BareCallsNone(m: map<string, Ruleset>, p: string, a: string)
    requires p in m && IsEmpty(m, p)
    ensures CallsIn(m[p].lists, a) == 0
  {
    var lists := m[p].lists;
    forall k | 0 <= k < |lists|
      ensures lists[k].active == [] && lists[k].inactive == []
    {
      assert lists[k] in lists;
    }
    CallsInNone(lists, a);
  }

  // One reference more or less, with the rule that makes the difference.
  lemma RefsCounted(m: map<string, Ruleset>, e: Entry, refs: nat, detached: seq<Entry>, loose: seq<Entry>,
                    loose1: seq<Entry>)
    requires e.anchor.Some? && e.anchor.value in m && Counted(m, detached, loose)
    requires forall a :: Calls(loose1, a) - Calls(loose, a) == if e.anchor == Some(a) then refs - m[a].refs else 0
    ensures Counted(m[e.anchor.value := m[e.anchor.value].(refs := refs)], detached, loose1)
  {
    hide Calls, CallsIn, Total;
    var p := e.anchor.value;
    var r := m[p].(refs := refs);
    forall a
      ensures Total(m[p := r], a) + Calls(detached, a) + Calls(loose1, a) == RefsOf(m[p := r], a)
    {
      TotalUpdate(m, p, r, a);
      TotalWithout(m, p, a);
    }
  }

  lemma LooseOne(e: Entry, a: string)
    ensures Calls([e], a) == (if e.anchor == Some(a) then 1 else 0) && Calls([], a) == 0
  {
    CallsOne(e, a);
  }

  // pf_anchor_remove for a rule that is on no list.
  lemma DropCounted(m: map<string, Ruleset>, e: Entry, detached: seq<Entry>)
    requires Counted(m, detached, [e])
    ensures Counted(DropAnchor(m, e.anchor), detached, [])
  {
    hide Calls, Total, RemoveIfEmpty;
    forall a
      ensures Calls([e], a) == (if e.anchor == Some(a) then 1 else 0) && Calls([], a) == 0
    {
      LooseOne(e, a);
    }
    if e.anchor.Some? {
      var a := e.anchor.value;
      assert RefsOf(m, a) >= 1;
      RefsCounted(m, e, m[a].refs - 1, detached, [e], []);
      RemoveCounted(m[a := m[a].(refs := m[a].refs - 1)], a, detached, []);
    }
  }

  lemma RmRuleCounted(w: World, e: Entry)
    requires Counted(w.sets, w.detached, [e])
    ensures RefsAreCallers(RmRule(w, e))
  {
    hide Calls, Total, DropAnchor;
    if e.id in w.busy {
      var e' := e.(body := e.body.(nr := -1));
      forall a
        ensures Calls(w.detached + [e'], a) == Calls(w.detached, a) + Calls([e], a) && Calls([], a) == 0
      {
        CallsConcat(w.detached, [e'], a);
        LooseOne(e, a);
        LooseOne(e', a);
      }
    } else {
      DropCounted(w.sets, e, w.detached);
    }
  }

  lemma {:induction false} CreateCounted(m: map<string, Ruleset>, news: seq<New>, detached: seq<Entry>)
    requires Counted(m, detached, [])
    ensures Counted(Create(m, news), detached, [])
    decreases |news|
  {
    hide Calls, Total;
    if news != [] {
      var p := news[0].path;
      if p !in m {
        var r := EmptyRuleset(news[0].parent);
        forall a
          ensures Total(m[p := r], a) + Calls(detached, a) + Calls([], a) == RefsOf(m[p := r], a)
        {
          TotalUpdate(m, p, r, a);
          TotalWithout(m, p, a);
          CallsInNone(r.lists, a);
        }
        CreateCounted(m[p := r], news[1..], detached);
      } else {
        CreateCounted(m, news[1..], detached);
      }
    }
  }

  lemma AddRefCounted(m: map<string, Ruleset>, e: Entry, detached: seq<Entry>)
    requires Counted(m, detached, []) && (e.anchor.Some? ==> e.anchor.value in m)
    ensures Counted(AddRefTo(m, e.anchor), detached, [e])
  {
    hide Calls, Total;
    forall a
      ensures Calls([e], a) == (if e.anchor == Some(a) then 1 else 0) && Calls([], a) == 0
    {
      LooseOne(e, a);
    }
    if e.anchor.Some? {
      RefsCounted(m, e, m[e.anchor.value].refs + 1, detached, [], [e]);
    }
  }

  // -------------------------------------------------------------------- requests

  lemma {:induction false} PurgeCounted(w: World, p: string, num: nat)
    requires RefsAreCallers(w)
    ensures RefsAreCallers(Purge(w, p, num))
    decreases if Has(w.sets, p, num) then |w.sets[p].lists[num].inactive| else 0
  {
    hide RefsAreCallers, RmRule;
    if Has(w.sets, p, num) && w.sets[p].lists[num].inactive != [] {
      RmRuleShrinks(Popped(w, p, num), w.sets[p].lists[num].inactive[0]);
      PurgeOneCounted(w, p, num);
      PurgeCounted(PurgeOne(w, p, num), p, num);
    }
  }

  lemma PurgeOneCounted(w: World, p: string, num: nat)
    requires RefsAreCallers(w) && Has(w.sets, p, num) && w.sets[p].lists[num].inactive != []
    ensures RefsAreCallers(PurgeOne(w, p, num))
  {
    hide Counted, RmRule;
    var l := w.sets[p].lists[num];
    var e := l.inactive[0];
    forall a
      ensures Held(l.(inactive := l.inactive[1..]), a) + Calls([e], a) == Held(l, a) + Calls([], a)
    {
      LooseOne(e, a);
    }
    ListsCounted(w, p, num, l.(inactive := l.inactive[1..]), [], [e]);
    RmRuleCounted(Popped(w, p, num), e);
  }

  // Only tickets and flags change, or numbers and skip pointers.
  lemma SameCallers(w: World, p: string, num: nat, l: Lists)
    requires RefsAreCallers(w) && Has(w.sets, p, num)
    requires forall a :: Held(l, a) == Held(w.sets[p].lists[num], a)
    ensures RefsAreCallers(SetLists(w, p, num, l))
  {
    hide Counted, Held;
    ListsCounted(w, p, num, l, [], []);
  }

  lemma BeginCounted(w: World, p: string, num: nat, news: seq<New>)
    requires RefsAreCallers(w)
    ensures RefsAreCallers(Begin(w, p, num, news).1)
  {
    hide RefsAreCallers, Purge, Create;
    if num < RULESET_MAX {
      var w0 := w.(sets := Create(w.sets, news));
      assert RefsAreCallers(w0) by { CreatedCounted(w, news); }
      PurgeCounted(w0, p, num);
      var w1 := Purge(w0, p, num);
      if Has(w0.sets, p, num) && Has(w1.sets, p, num) {
        var l := w1.sets[p].lists[num];
        SameCallers(w1, p, num, l.(iticket := NextTicket(l.iticket), open := true));
      }
    }
  }

  lemma CreatedCounted(w: World, news: seq<New>)
    requires RefsAreCallers(w)
    ensures RefsAreCallers(w.(sets := Create(w.sets, news)))
  {
    hide Counted;
    CreateCounted(w.sets, news, w.detached);
  }

  lemma RollbackCounted(w: World, p: string, num: nat, ticket: nat)
    requires RefsAreCallers(w)
    ensures RefsAreCallers(Rollback(w, p, num, ticket))
  {
    hide RefsAreCallers, Purge;
    PurgeCounted(w, p, num);
    var w1 := Purge(w, p, num);
    if IsOpen(w.sets, p, num, ticket) && Has(w1.sets, p, num) {
      SameCallers(w1, p, num, w1.sets[p].lists[num].(open := false));
    }
  }

  lemma SkipsSameCalls(list: seq<Entry>, a: string)
    ensures Calls(WithSkips(list), a) == Calls(list, a) && Calls(Numbered(list), a) == Calls(list, a)
  {
    CallsSame(WithSkips(list), list, a);
    CallsSame(Numbered(list), list, a);
  }

  lemma CommitCounted(w: World, p: string, num: nat, ticket: nat)
    requires RefsAreCallers(w) && IsOpen(w.sets, p, num, ticket)
    ensures RefsAreCallers(Commit(w, p, num, ticket).value)
  {
    hide RefsAreCallers, Purge, WithSkips, RemoveIfEmpty, Calls;
    var l := w.sets[p].lists[num];
    var n := Lists(WithSkips(l.inactive), l.active, l.iticket, l.iticket, true);
    forall a
      ensures Held(n, a) == Held(l, a)
    {
      SkipsSameCalls(l.inactive, a);
    }
    SameCallers(w, p, num, n);
    PurgeCounted(SetLists(w, p, num, n), p, num);
    var w1 := Purge(SetLists(w, p, num, n), p, num);
    if Has(w1.sets, p, num) {
      SameCallers(w1, p, num, w1.sets[p].lists[num].(open := false));
      RemovedCounted(SetLists(w1, p, num, w1.sets[p].lists[num].(open := false)), p);
    }
  }

  lemma RemovedCounted(w: World, p: string)
    requires RefsAreCallers(w)
    ensures RefsAreCallers(w.(sets := RemoveIfEmpty(w.sets, p)))
  {
    hide Counted;
    RemoveCounted(w.sets, p, w.detached, []);
  }

  // The rule of a request, once its anchor has been set up.
  lemma SetUpCounted(w: World, news: seq<New>, e: Entry)
    requires RefsAreCallers(w) && (e.anchor.Some? ==> e.anchor.value in Create(w.sets, news))
    ensures var m := AddRefTo(Create(w.sets, news), e.anchor);
      Counted(m, w.detached, [e]) && Counted(DropAnchor(m, e.anchor), w.detached, [])
  {
    hide Counted, Create, AddRefTo, DropAnchor;
    CreateCounted(w.sets, news, w.detached);
    AddRefCounted(Create(w.sets, news), e, w.detached);
    DropCounted(AddRefTo(Create(w.sets, news), e.anchor), e, w.detached);
  }

  lemma {:induction false} CreateKeepsLists(m: map<string, Ruleset>, news: seq<New>, p: string)
    requires p in m
    ensures p in Create(m, news) && Create(m, news)[p].lists == m[p].lists
    decreases |news|
  {
    if news != [] {
      CreateKeepsLists(if news[0].path in m then m else m[news[0].path := EmptyRuleset(news[0].parent)], news[1..], p);
    }
  }

  lemma SetUpKeepsLists(m: map<string, Ruleset>, news: seq<New>, e: Entry, p: string)
    requires p in m
    ensures var n := AddRefTo(Create(m, news), e.anchor); p in n && n[p].lists == m[p].lists
  {
    CreateKeepsLists(m, news, p);
  }

  predicate Named(w: World, e: Entry, news: seq<New>) {
    e.anchor.Some? ==> e.anchor.value in Create(w.sets, news)
  }

  // The requests that come to set an anchor up.
  predicate Adds(w: World, p: string, num: nat, ticket: nat) {
    num < RULESET_MAX && Has(w.sets, p, num) && w.sets[p].lists[num].iticket == ticket
  }

  predicate Changes(w: World, p: string, num: nat, how: Change, ticket: nat) {
    && num < RULESET_MAX && Has(w.sets, p, num) && w.sets[p].lists[num].aticket == ticket
    && !how.Remove? && !how.GetTicket?
  }

  lemma AddCounted(w: World, p: string, num: nat, ticket: nat, e: Entry, news: seq<New>, err: bool)
    requires RefsAreCallers(w) && (Adds(w, p, num, ticket) ==> Named(w, e, news))
    ensures RefsAreCallers(Add(w, p, num, ticket, e, news, err).1)
  {
    hide Counted, Create, AddRefTo, DropAnchor, Calls;
    if num < RULESET_MAX && Has(w.sets, p, num) && w.sets[p].lists[num].iticket == ticket {
      SetUpCounted(w, news, e);
      SetUpKeepsLists(w.sets, news, e, p);
      var w1 := w.(sets := AddRefTo(Create(w.sets, news), e.anchor));
      if !err {
        var l := w1.sets[p].lists[num];
        var nr := if l.inactive == [] then 0 else l.inactive[|l.inactive| - 1].body.nr + 1;
        var n := l.(inactive := l.inactive + [e.(body := e.body.(nr := nr))]);
        forall a
          ensures Held(n, a) + Calls([], a) == Held(l, a) + Calls([e], a)
        {
          CallsConcat(l.inactive, [e.(body := e.body.(nr := nr))], a);
          LooseOne(e, a);
          LooseOne(e.(body := e.body.(nr := nr)), a);
        }
        ListsCounted(w1, p, num, n, [e], []);
      }
    }
  }

  lemma CallsSplit(list: seq<Entry>, k: nat, mid: seq<Entry>, l: nat, a: string)
    requires k <= l <= |list|
    ensures Calls(list[..k] + mid + list[l..], a) + Calls(list[k..l], a) == Calls(list, a) + Calls(mid, a)
  {
    hide Calls;
    CallsConcat(list[..k] + mid, list[l..], a);
    CallsConcat(list[..k], mid, a);
    CallsConcat(list[..k] + list[k..l], list[l..], a);
    CallsConcat(list[..k], list[k..l], a);
    assert list == list[..k] + list[k..l] + list[l..];
  }

  // A change adds the new rule's call, or takes that of the rule removed.
  lemma ChangedCalls(list: seq<Entry>, how: Change, nr: int, e: Entry, a: string)
    requires !how.GetTicket? && Changed(list, how, nr, e).Some?
    ensures var n := Changed(list, how, nr, e).value;
      if how.Remove? then PositionOf(list, nr) < |list| &&
        Calls(n, a) + Calls([list[PositionOf(list, nr)]], a) == Calls(list, a)
      else Calls(n, a) == Calls(list, a) + Calls([e], a)
  {
    hide Calls;
    var k := PositionOf(list, nr);
    LooseOne(e, a);
    match how
    case AddHead => CallsConcat([e], list, a);
    case AddTail => CallsConcat(list, [e], a);
    case AddBefore =>
      CallsSplit(list, k, [e], k, a);
      assert list[k..k] == [];
    case AddAfter =>
      CallsSplit(list, k + 1, [e], k + 1, a);
      assert list[k + 1..k + 1] == [];
    case Remove =>
      CallsSplit(list, k, [], k + 1, a);
      assert list[k..k + 1] == [list[k]] && list[..k] + [] == list[..k];
  }

  // The rule taken off a list.
  function Off(gone: Option<Entry>): seq<Entry> { if gone.Some? then [gone.value] else [] }

  lemma TakeOutCounted(w: World, p: string, num: nat, list: seq<Entry>, gone: Option<Entry>, loose: seq<Entry>)
    requires Has(w.sets, p, num) && Counted(w.sets, w.detached, loose)
    requires forall a :: Calls(list, a) + Calls(Off(gone), a) == Calls(w.sets[p].lists[num].active, a) + Calls(loose, a)
    ensures RefsAreCallers(TakeOut(w, p, num, list, gone))
  {
    hide Counted, RmRule, Calls;
    ListsCounted(w, p, num, w.sets[p].lists[num].(active := list), loose, Off(gone));
    if gone.Some? {
      RmRuleCounted(SetLists(w, p, num, w.sets[p].lists[num].(active := list)), gone.value);
    }
  }

  lemma InstallCounted(w: World, p: string, num: nat, list: seq<Entry>, gone: Option<Entry>, loose: seq<Entry>)
    requires Has(w.sets, p, num) && Counted(w.sets, w.detached, loose)
    requires forall a :: Calls(list, a) + Calls(Off(gone), a) == Calls(w.sets[p].lists[num].active, a) + Calls(loose, a)
    ensures RefsAreCallers(Install(w, p, num, list, gone).1)
  {
    hide Counted, RefsAreCallers, TakeOut, Calls, WithSkips, Numbered, RemoveIfEmpty;
    TakeOutCounted(w, p, num, list, gone, loose);
    var w1 := TakeOut(w, p, num, list, gone);
    if Has(w1.sets, p, num) {
      var l := w1.sets[p].lists[num];
      var n := l.(active := WithSkips(Numbered(l.active)), aticket := NextTicket(l.aticket));
      forall a
        ensures Held(n, a) == Held(l, a)
      {
        SkipsSameCalls(l.active, a);
        SkipsSameCalls(Numbered(l.active), a);
      }
      SameCallers(w1, p, num, n);
      RemovedCounted(SetLists(w1, p, num, n), p);
    }
  }

  lemma ChangeCounted(w: World, p: string, num: nat, how: Change, ticket: nat, nr: int, e: Entry,
                      news: seq<New>, err: bool)
    requires RefsAreCallers(w)
    requires Changes(w, p, num, how, ticket) ==> Named(w, e, news)
    ensures RefsAreCallers(ChangeRule(w, p, num, how, ticket, nr, e, news, err).1)
  {
    hide Counted, Create, AddRefTo, DropAnchor, Calls, Install, Changed;
    if num < RULESET_MAX && Has(w.sets, p, num) {
      var l := w.sets[p].lists[num];
      if how.GetTicket? {
        SameCallers(w, p, num, l.(aticket := NextTicket(l.aticket)));
      } else if ticket == l.aticket {
        var list := Changed(l.active, how, nr, e);
        forall a | list.Some?
          ensures if how.Remove? then PositionOf(l.active, nr) < |l.active| &&
            Calls(list.value, a) + Calls([l.active[PositionOf(l.active, nr)]], a) == Calls(l.active, a)
            else Calls(list.value, a) == Calls(l.active, a) + Calls([e], a)
          ensures Calls([], a) == 0
        {
          ChangedCalls(l.active, how, nr, e, a);
          LooseOne(e, a);
        }
        if how.Remove? {
          if list.Some? {
            assert PositionOf(l.active, nr) < |l.active| by { ChangedCalls(l.active, how, nr, e, ""); }
            InstallCounted(w, p, num, list.value, Some(l.active[PositionOf(l.active, nr)]), []);
          }
        } else {
          SetUpCounted(w, news, e);
          SetUpKeepsLists(w.sets, news, e, p);
          if !err && list.Some? {
            InstallCounted(w.(sets := AddRefTo(Create(w.sets, news), e.anchor)), p, num, list.value, None, [e]);
          }
        }
      }
    }
  }

  lemma {:induction false} ReapCounted(w: World, list: seq<Entry>, id: nat)
    requires Counted(w.sets, w.detached, list)
    ensures RefsAreCallers(Reap(w, list, id))
    decreases |list|
  {
    hide Counted, DropAnchor, Calls;
    if list != [] {
      var e, rest := list[0], list[1..];
      assert list == [e] + rest;
      if e.id == id {
        DropOneCounted(w.sets, e, w.detached, rest);
        ReapCounted(w.(sets := DropAnchor(w.sets, e.anchor)), rest, id);
      } else {
        KeepCounted(w.sets, e, w.detached, rest);
        ReapCounted(w.(detached := w.detached + [e]), rest, id);
      }
    }
  }

  lemma KeepCounted(m: map<string, Ruleset>, e: Entry, detached: seq<Entry>, rest: seq<Entry>)
    requires Counted(m, detached, [e] + rest)
    ensures Counted(m, detached + [e], rest)
  {
    hide Calls, Total;
    forall a
      ensures Calls(detached + [e], a) + Calls(rest, a) == Calls(detached, a) + Calls([e] + rest, a)
    {
      CallsConcat(detached, [e], a);
      CallsConcat([e], rest, a);
    }
  }

  lemma DropOneCounted(m: map<string, Ruleset>, e: Entry, detached: seq<Entry>, rest: seq<Entry>)
    requires Counted(m, detached, [e] + rest)
    ensures Counted(DropAnchor(m, e.anchor), detached, rest)
  {
    hide Calls, Total, DropAnchor;
    forall a
      ensures Calls(detached + rest, a) + Calls([e], a) == Calls(detached, a) + Calls([e] + rest, a)
      ensures Calls(detached + rest, a) == Calls(detached, a) + Calls(rest, a) && Calls([], a) == 0
    {
      CallsConcat(detached, rest, a);
      CallsConcat([e], rest, a);
      LooseOne(e, a);
    }
    DropCounted(m, e, detached + rest);
  }

  /** The rule of a request that comes to set its anchor up names a ruleset that is
      there by then. */
  predicate NamesRuleset(w: World, op: Op) {
    match op
    case AddOp(p, num, ticket, e, news, _) => Adds(w, p, num, ticket) ==> Named(w, e, news)
    case ChangeOp(p, num, how, ticket, _, e, news, _) => Changes(w, p, num, how, ticket) ==> Named(w, e, news)
    case _ => true
  }

  lemma StepCounted(w: World, op: Op)
    requires RefsAreCallers(w) && NamesRuleset(w, op)
    ensures RefsAreCallers(Step(w, op))
  {
    hide RefsAreCallers, Begin, Add, Rollback, Commit, ChangeRule, Reap, Create;
    match op
    case BeginOp(p, num, news) => BeginCounted(w, p, num, news);
    case AddOp(p, num, ticket, e, news, err) => AddCounted(w, p, num, ticket, e, news, err);
    case RollbackOp(p, num, ticket) => RollbackCounted(w, p, num, ticket);
    case CommitOp(p, num, ticket) => if Commit(w, p, num, ticket).Some? { CommittedCounted(w, p, num, ticket); }
    case ChangeOp(p, num, how, ticket, nr, e, news, err) => ChangeCounted(w, p, num, how, ticket, nr, e, news, err);
    case InUse(id) => SameSetsCounted(w, w.(busy := w.busy + {id}));
    case NoLonger(id) => NoLongerCounted(w, id);
  }

  lemma CommittedCounted(w: World, p: string, num: nat, ticket: nat)
    requires RefsAreCallers(w) && Commit(w, p, num, ticket).Some?
    ensures RefsAreCallers(Commit(w, p, num, ticket).value)
  {
    hide RefsAreCallers, Purge;
    CommitCounted(w, p, num, ticket);
  }

  lemma SameSetsCounted(w: World, w1: World)
    requires RefsAreCallers(w) && w1.sets == w.sets && w1.detached == w.detached
    ensures RefsAreCallers(w1)
  {
  }

  lemma NoLongerCounted(w: World, id: nat)
    requires RefsAreCallers(w)
    ensures RefsAreCallers(Reap(w.(busy := w.busy - {id}, detached := []), w.detached, id))
  {
    assert Counted(w.sets, [], w.detached);
    hide Counted;
    ReapCounted(w.(busy := w.busy - {id}, detached := []), w.detached, id);
  }

  ghost predicate NamingRun(w: World, ops: seq<Op>)
    decreases |ops|
  {
    ops == [] || (NamesRuleset(w, ops[0]) && NamingRun(Step(w, ops[0]), ops[1..]))
  }

  /** Over every run of requests whose rules name rulesets that are there, each
      ruleset's count of references is the number of rules that call it, on active
      and inactive lists or still in use off them. */
  lemma {:induction false} RunCounted(w: World, t: Loads, ops: seq<Op>)
    requires RefsAreCallers(w) && NamingRun(w, ops)
    ensures RefsAreCallers(Rulesets.Run(w, t, ops).0)
    decreases |ops|
  {
    hide RefsAreCallers, NamesRuleset, Step, Believe;
    if ops != [] {
      StepCounted(w, ops[0]);
      RunCounted(Step(w, ops[0]), Believe(t, w, ops[0]), ops[1..]);
    }
  }

  lemma InitialCounted()
    ensures RefsAreCallers(INITIAL)
  {
    hide Calls, CallsIn, Total;
    var m, r := map[], EmptyRuleset(None);
    forall a
      ensures Total(INITIAL.sets, a) == 0 && Calls([], a) == 0
    {
      assert m["" := r] == INITIAL.sets && m - {""} == m;
      TotalUpdate(m, "", r, a);
      CallsInNone(r.lists, a);
      TotalNothing(a);
    }
  }

  lemma TotalNothing(a: string)
    ensures Total(map[], a) == 0 && Calls([], a) == 0
  {
  }

  // -------------------------------------------------------------- what follows

  lemma {:induction false} CallsSome(list: seq<Entry>, e: Entry)
    requires e in list && e.anchor.Some?
    ensures Calls(list, e.anchor.value) > 0
  {
    if list[0] != e {
      CallsSome(list[1..], e);
    }
  }

  lemma {:induction false} CallsInSome(lists: seq<Lists>, l: Lists, a: string)
    requires l in lists
    ensures CallsIn(lists, a) >= Held(l, a)
  {
    if lists[0] != l {
      CallsInSome(lists[1..], l, a);
    }
  }

  // A rule is somewhere on a list, or off them but in use.
  predicate Somewhere(w: World, e: Entry) {
    e in w.detached || exists p, l :: p in w.sets && l in w.sets[p].lists && (e in l.active || e in l.inactive)
  }

  /** So no rule anywhere calls a ruleset that has been freed. */
  lemma NoCallDangles(w: World, e: Entry)
    requires RefsAreCallers(w) && Somewhere(w, e) && e.anchor.Some?
    ensures e.anchor.value in w.sets && w.sets[e.anchor.value].refs > 0
  {
    hide Calls, CallsIn, Total;
    var a := e.anchor.value;
    if e in w.detached {
      CallsSome(w.detached, e);
    } else {
      var p, l :| p in w.sets && l in w.sets[p].lists && (e in l.active || e in l.inactive);
      TotalWithout(w.sets, p, a);
      CallsInSome(w.sets[p].lists, l, a);
      if e in l.active {
        CallsSome(l.active, e);
      } else {
        CallsSome(l.inactive, e);
      }
    }
    assert RefsOf(w.sets, a) > 0;
  }

  /** And for a rule that is off its list a count of one says just that no other rule
      calls its anchor. */
  lemma LastToCallExactly(w: World, e: Entry)
    requires Counted(w.sets, w.detached, [e]) && e.anchor.Some?
    ensures var a := e.anchor.value;
      && a in w.sets && (w.sets[a].refs == 1 <==> Total(w.sets, a) == 0 && Calls(w.detached, a) == 0)
  {
    hide Calls, Total;
    LooseOne(e, e.anchor.value);
    assert RefsOf(w.sets, e.anchor.value) > 0;
  }
}
