/** Loading rules: the ticketed begin/add/commit/rollback transaction, changes to
    active lists, the two-phase commit of several lists, and the removal of
    rulesets that have become empty. */
module Rulesets {
  import opened Options
  import opened PfRules

  // scrub, filter, nat, binat, rdr
  const RULESET_MAX := 5

  /** A loaded rule: an identity, its fields and the path of the anchor it calls. */
  datatype Entry = Entry(id: nat, body: Rule, anchor: Option<string>)

  // u_int32_t
  type Ticket = t: nat | t < 0x1_0000_0000

  /** Active and inactive list of one kind, their tickets, and whether a load is open. */
  datatype Lists = Lists(active: seq<Entry>, inactive: seq<Entry>, aticket: Ticket, iticket: Ticket, open: bool)

  datatype Ruleset = Ruleset(lists: seq<Lists>, parent: Option<string>, refs: nat, tables: nat, topen: bool)

  const NO_LISTS := Lists([], [], 0, 0, false)

  function EmptyRuleset(parent: Option<string>): Ruleset {
    Ruleset(seq(RULESET_MAX, _ => NO_LISTS), parent, 0, 0, false)
  }

  /** All rulesets by path ("" is the main one); the rules that states or source
      nodes still use; and the rules unlinked while in use. */
  datatype World = World(sets: map<string, Ruleset>, busy: set<nat>, detached: seq<Entry>)

  const INITIAL := World(map["" := EmptyRuleset(None)], {}, [])

  /** The answer to a request. `Lost` is none: the ruleset was freed under the
      request, and the code goes on with the freed memory. */
  datatype Reply = Done(ticket: nat) | Refused | Lost

  function NextTicket(t: Ticket): Ticket { (t + 1) % 0x1_0000_0000 }

  // ------------------------------------------------------------ empty rulesets

  predicate ListsEmpty(l: Lists) { l.active == [] && l.inactive == [] && !l.open }

  // Empty but perhaps for children.
  predicate IsBare(m: map<string, Ruleset>, p: string)
    requires p in m
  {
    && p != "" && m[p].refs == 0 && m[p].tables == 0 && !m[p].topen
    && forall l | l in m[p].lists :: ListsEmpty(l)
  }

  predicate IsEmpty(m: map<string, Ruleset>, p: string)
    requires p in m
  {
    IsBare(m, p) && forall q | q in m :: m[q].parent != Some(p)
  }

  // pf_remove_if_empty_ruleset, up the chain of parents
  function RemoveIfEmpty(m: map<string, Ruleset>, p: string): map<string, Ruleset>
    decreases |m|
  {
    if p !in m || !IsEmpty(m, p) then m
    else
      var rest := m - {p};
      assert |rest.Keys| < |m.Keys| by { assert rest.Keys == m.Keys - {p}; }
      if m[p].parent.Some? then RemoveIfEmpty(rest, m[p].parent.value) else rest
  }

  // pf_anchor_remove
  function DropAnchor(m: map<string, Ruleset>, anchor: Option<string>): map<string, Ruleset> {
    if anchor == None || anchor.value !in m || m[anchor.value].refs == 0 then m
    else
      var a := anchor.value;
      var m1 := m[a := m[a].(refs := m[a].refs - 1)];
      if m1[a].refs == 0 then RemoveIfEmpty(m1, a) else m1
  }

  // pf_rm_rule for a rule that is off its list: freed now, or when no longer in use
  // (`busy`). The counters that say so are those of RefCounts.RmRule.
  function RmRule(w: World, e: Entry): World {
    if e.id in w.busy then w.(detached := w.detached + [e.(body := e.body.(nr := -1))])
    else w.(sets := DropAnchor(w.sets, e.anchor))
  }

  /** Rulesets may only have gone; the others keep their lists, and none goes
      that has a rule or an open load. */
  ghost predicate Shrunk(m: map<string, Ruleset>, n: map<string, Ruleset>) {
    && (forall p :: p in n ==> p in m && n[p].lists == m[p].lists)
    && (forall p :: p in m && p !in n ==> p != "" && forall l :: l in m[p].lists ==> ListsEmpty(l))
  }

  lemma {:induction false} RemoveShrinks(m: map<string, Ruleset>, p: string)
    ensures Shrunk(m, RemoveIfEmpty(m, p))
    decreases |m|
  {
    if p in m && IsEmpty(m, p) {
      var rest := m - {p};
      assert |rest.Keys| < |m.Keys| by { assert rest.Keys == m.Keys - {p}; }
      if m[p].parent.Some? {
        RemoveShrinks(rest, m[p].parent.value);
      }
    }
  }

  // A ruleset in which nothing is: no rule, no open load, no table, no call of it, and no
  // ruleset below it.
  ghost predicate Unneeded(m: map<string, Ruleset>, q: string)
    requires q in m
  {
    && q != "" && m[q].refs == 0 && m[q].tables == 0 && !m[q].topen
    && (forall l :: l in m[q].lists ==> l.active == [] && l.inactive == [] && !l.open)
    && (forall r :: r in m ==> m[r].parent != Some(q))
  }

  /** pf_remove_if_empty_ruleset removes its ruleset if and only if it is unneeded, and
      nothing that is not unneeded, or becomes so by what is removed below it. */
  lemma {:induction false} RemovesUnneeded(m: map<string, Ruleset>, p: string)
    ensures var n := RemoveIfEmpty(m, p);
      && (p in m ==> (p in n <==> !Unneeded(m, p)))
      && (forall q :: q in n ==> q in m && n[q] == m[q])
      && (forall q :: q in m && q !in n ==> Unneeded((map r | r in m && (r in n || r == q) :: m[r]), q))
    decreases |m|
  {
    var n := RemoveIfEmpty(m, p);
    if p in m {
      assert IsEmpty(m, p) <==> Unneeded(m, p);
    }
    if p in m && IsEmpty(m, p) {
      var rest := m - {p};
      assert |rest.Keys| < |m.Keys| by { assert rest.Keys == m.Keys - {p}; }
      if m[p].parent.Some? {
        RemovesUnneeded(rest, m[p].parent.value);
        forall q | q in m && q !in n
          ensures Unneeded((map r | r in m && (r in n || r == q) :: m[r]), q)
        {
          if q != p {
            assert (map r | r in m && (r in n || r == q) :: m[r])
                == (map r | r in rest && (r in n || r == q) :: rest[r]);
          }
        }
      }
    }
  }

  lemma ShrunkTrans(a: map<string, Ruleset>, b: map<string, Ruleset>, c: map<string, Ruleset>)
    requires Shrunk(a, b) && Shrunk(b, c)
    ensures Shrunk(a, c)
  {
  }

  lemma DropShrinks(m: map<string, Ruleset>, anchor: Option<string>)
    ensures Shrunk(m, DropAnchor(m, anchor))
  {
    if anchor.Some? && anchor.value in m && m[anchor.value].refs == 1 {
      var a := anchor.value;
      RemoveShrinks(m[a := m[a].(refs := 0)], a);
    }
  }

  lemma RmRuleShrinks(w: World, e: Entry)
    ensures Shrunk(w.sets, RmRule(w, e).sets)
  {
    DropShrinks(w.sets, e.anchor);
  }

  // ---------------------------------------------------------------- skip steps

  function Bodies(list: seq<Entry>): seq<Rule> {
    seq(|list|, k requires 0 <= k < |list| => list[k].body)
  }

  // The list after pf_calc_skip_steps.
  function WithSkips(list: seq<Entry>): (r: seq<Entry>)
    ensures |r| == |list|
  {
    var b := Bodies(list);
    seq(|list|, k requires 0 <= k < |list| => list[k].(body := list[k].body.(
      skip := seq(SKIP_COUNT, i requires 0 <= i < SKIP_COUNT => Pointer(b, SkipTarget(b, k, i))))))
  }

  // The list with `nr` set to the positions.
  function Numbered(list: seq<Entry>): (r: seq<Entry>)
    ensures |r| == |list|
  {
    seq(|list|, k requires 0 <= k < |list| => list[k].(body := list[k].body.(nr := k)))
  }

  ghost predicate NumberedFromZero(list: seq<Entry>) {
    forall k :: 0 <= k < |list| ==> list[k].body.nr == k
  }

  /** What an active list looks like: numbered by position, with the skip pointers
      of this very list. */
  ghost predicate ActiveOk(list: seq<Entry>) {
    NumberedFromZero(list) && SkipsSet(Bodies(list))
  }

  // The rule as its loader gave it, without number and skip pointers.
  function Given(e: Entry): Entry { e.(body := e.body.(nr := 0, skip := [])) }

  function GivenAll(list: seq<Entry>): (r: seq<Entry>)
    ensures |r| == |list|
  {
    seq(|list|, k requires 0 <= k < |list| => Given(list[k]))
  }

  lemma WithSkipsOk(list: seq<Entry>)
    requires NumberedFromZero(list)
    ensures ActiveOk(WithSkips(list)) && GivenAll(WithSkips(list)) == GivenAll(list)
  {
    var r := WithSkips(list);
    var a, b := Bodies(r), Bodies(list);
    assert SameButSkips(a, b);
    forall k, i | 0 <= k < |a| && 0 <= i < SKIP_COUNT
      ensures a[k].skip[i] == Pointer(a, SkipTarget(a, k, i))
    {
      SkipTargetSameButSkips(a, b, k, i);
    }
  }

  // ---------------------------------------------------------------- transactions

  // A ruleset that a request creates on its way; AnchorNames says which.
  datatype New = New(path: string, parent: Option<string>)

  function Create(m: map<string, Ruleset>, news: seq<New>): map<string, Ruleset>
    decreases |news|
  {
    if news == [] then m
    else Create(if news[0].path in m then m else m[news[0].path := EmptyRuleset(news[0].parent)], news[1..])
  }

  function SetLists(w: World, p: string, num: nat, l: Lists): World
    requires p in w.sets && num < |w.sets[p].lists|
  {
    w.(sets := w.sets[p := w.sets[p].(lists := w.sets[p].lists[num := l])])
  }

  ghost predicate Sized(m: map<string, Ruleset>) {
    "" in m && forall p :: p in m ==> |m[p].lists| == RULESET_MAX
  }

  predicate Has(m: map<string, Ruleset>, p: string, num: nat) {
    p in m && num < |m[p].lists|
  }

  /** Empties the inactive list of (p, num) from its front. A rule may be the last
      to call its own ruleset and take it along; the request ends there. */
  function Purge(w: World, p: string, num: nat): World
    decreases if Has(w.sets, p, num) then |w.sets[p].lists[num].inactive| else 0
  {
    if !Has(w.sets, p, num) || w.sets[p].lists[num].inactive == [] then w
    else
      RmRuleShrinks(Popped(w, p, num), w.sets[p].lists[num].inactive[0]);
      Purge(PurgeOne(w, p, num), p, num)
  }

  function Popped(w: World, p: string, num: nat): World
    requires Has(w.sets, p, num) && w.sets[p].lists[num].inactive != []
  {
    SetLists(w, p, num, w.sets[p].lists[num].(inactive := w.sets[p].lists[num].inactive[1..]))
  }

  function PurgeOne(w: World, p: string, num: nat): World
    requires Has(w.sets, p, num) && w.sets[p].lists[num].inactive != []
  {
    RmRule(Popped(w, p, num), w.sets[p].lists[num].inactive[0])
  }

  /** pf_begin_rules: flushes the inactive list and opens it under a new ticket. */
  function Begin(w0: World, p: string, num: nat, news: seq<New>): (Reply, World) {
    var w := if num >= RULESET_MAX then w0 else w0.(sets := Create(w0.sets, news));
    if num >= RULESET_MAX || !Has(w.sets, p, num) then (Refused, w)
    else
      var w1 := Purge(w, p, num);
      if !Has(w1.sets, p, num) then (Lost, w1)
      else
        var t := NextTicket(w1.sets[p].lists[num].iticket);
        (Done(t), SetLists(w1, p, num, w1.sets[p].lists[num].(iticket := t, open := true)))
  }

  predicate IsOpen(m: map<string, Ruleset>, p: string, num: nat, ticket: nat) {
    num < RULESET_MAX && Has(m, p, num) && m[p].lists[num].open && m[p].lists[num].iticket == ticket
  }

  // pf_rollback_rules
  function Rollback(w: World, p: string, num: nat, ticket: nat): World {
    if !IsOpen(w.sets, p, num, ticket) then w
    else
      var w1 := Purge(w, p, num);
      if !Has(w1.sets, p, num) then w1
      else SetLists(w1, p, num, w1.sets[p].lists[num].(open := false))
  }

  /** pf_commit_rules: the inactive list becomes the active one, the old one is
      purged, and the ruleset goes if it is empty now. None is EINVAL or EBUSY. */
  function Commit(w: World, p: string, num: nat, ticket: nat): Option<World> {
    if !IsOpen(w.sets, p, num, ticket) then None
    else
      var l := w.sets[p].lists[num];
      var w1 := Purge(SetLists(w, p, num, Lists(WithSkips(l.inactive), l.active, l.iticket, l.iticket, true)), p, num);
      if !Has(w1.sets, p, num) then Some(w1)
      else
        var w2 := SetLists(w1, p, num, w1.sets[p].lists[num].(open := false));
        Some(w2.(sets := RemoveIfEmpty(w2.sets, p)))
  }

  function AddRefTo(m: map<string, Ruleset>, anchor: Option<string>): map<string, Ruleset> {
    if anchor.Some? && anchor.value in m
    then m[anchor.value := m[anchor.value].(refs := m[anchor.value].refs + 1)] else m
  }

  /** DIOCADDRULE: appends to the inactive list of the current ticket, open or not.
      `err` stands for every later complaint about the rule, and frees it again. */
  function Add(w: World, p: string, num: nat, ticket: nat, e: Entry, news: seq<New>, err: bool): (bool, World) {
    if num >= RULESET_MAX || !Has(w.sets, p, num) || w.sets[p].lists[num].iticket != ticket then (false, w)
    else
      var w1 := w.(sets := AddRefTo(Create(w.sets, news), e.anchor));
      if err then (false, w1.(sets := DropAnchor(w1.sets, e.anchor)))
      else if !Has(w1.sets, p, num) then (false, w1)
      else
        var l := w1.sets[p].lists[num];
        var nr := if l.inactive == [] then 0 else l.inactive[|l.inactive| - 1].body.nr + 1;
        (true, SetLists(w1, p, num, l.(inactive := l.inactive + [e.(body := e.body.(nr := nr))])))
  }

  datatype Change = AddHead | AddTail | AddBefore | AddAfter | Remove | GetTicket

  function PositionOf(list: seq<Entry>, nr: int): (k: nat)
    ensures k <= |list| && (k < |list| ==> list[k].body.nr == nr)
  {
    if list == [] || list[0].body.nr == nr then 0 else 1 + PositionOf(list[1..], nr)
  }

  // The new active list, or None when the rule named is not there.
  function Changed(list: seq<Entry>, how: Change, nr: int, e: Entry): Option<seq<Entry>> {
    var k := PositionOf(list, nr);
    match how
    case AddHead => Some([e] + list)
    case AddTail => Some(list + [e])
    case GetTicket => Some(list)
    case AddBefore => if k == |list| then None else Some(list[..k] + [e] + list[k..])
    case AddAfter => if k == |list| then None else Some(list[..k + 1] + [e] + list[k + 1..])
    case Remove => if k == |list| then None else Some(list[..k] + list[k + 1..])
  }

  lemma {:induction false} PositionIsNumber(list: seq<Entry>, nr: int, from: nat)
    requires forall k :: 0 <= k < |list| ==> list[k].body.nr == from + k
    ensures PositionOf(list, nr) == if from <= nr < from + |list| then nr - from else |list|
    decreases |list|
  {
    if list != [] {
      PositionIsNumber(list[1..], nr, from + 1);
    }
  }

  /** In a numbered list a change goes exactly where its number says: the new rule
      comes to stand at the head, the end, before or after rule `nr`, or rule `nr`
      goes; all others keep their order. There is no such rule when `nr` is out of
      range, and then nothing changes. */
  lemma ChangedAtNumber(list: seq<Entry>, how: Change, nr: int, e: Entry)
    requires NumberedFromZero(list)
    ensures var r := Changed(list, how, nr, e);
            && (r.None? <==> (how.AddBefore? || how.AddAfter? || how.Remove?) && !(0 <= nr < |list|))
            && (how.GetTicket? ==> r == Some(list))
            && (r.Some? && how.AddHead? ==> r.value[0] == e && r.value[1..] == list)
            && (r.Some? && how.AddTail? ==>
                  |r.value| > 0 && r.value[|r.value| - 1] == e && r.value[..|r.value| - 1] == list)
            && (r.Some? && how.AddBefore? ==>
                |r.value| == |list| + 1 && r.value[nr] == e && r.value[nr + 1] == list[nr]
                && r.value[..nr] == list[..nr] && r.value[nr + 1..] == list[nr..])
            && (r.Some? && how.AddAfter? ==>
                |r.value| == |list| + 1 && r.value[nr + 1] == e && r.value[nr] == list[nr]
                && r.value[..nr + 1] == list[..nr + 1] && r.value[nr + 2..] == list[nr + 1..])
            && (r.Some? && how.Remove? ==>
                |r.value| == |list| - 1 && r.value[..nr] == list[..nr] && r.value[nr..] == list[nr + 1..])
  {
    PositionIsNumber(list, nr, 0);
  }

  // The changed list is in place and rule `gone`, if any, has been freed.
  function TakeOut(w: World, p: string, num: nat, list: seq<Entry>, gone: Option<Entry>): World
    requires Has(w.sets, p, num)
  {
    var w1 := SetLists(w, p, num, w.sets[p].lists[num].(active := list));
    if gone.Some? then RmRule(w1, gone.value) else w1
  }

  /** The end of DIOCCHANGERULE: a rule taken off is freed first; then the list is
      renumbered and gets a new ticket and skip pointers, and the ruleset goes if it
      is empty now. */
  function Install(w: World, p: string, num: nat, list: seq<Entry>, gone: Option<Entry>): (Reply, World)
    requires Has(w.sets, p, num)
  {
    var w1 := TakeOut(w, p, num, list, gone);
    if !Has(w1.sets, p, num) then (Lost, w1)
    else
      var l := w1.sets[p].lists[num];
      var w2 := SetLists(w1, p, num, l.(active := WithSkips(Numbered(l.active)), aticket := NextTicket(l.aticket)));
      (Done(l.aticket), w2.(sets := RemoveIfEmpty(w2.sets, p)))
  }

  /** DIOCCHANGERULE on an active list. GetTicket answers with the new ticket, the
      others with the one they were given. */
  function ChangeRule(w: World, p: string, num: nat, how: Change, ticket: nat, nr: int, e: Entry,
                      news: seq<New>, err: bool): (Reply, World) {
    if num >= RULESET_MAX || !Has(w.sets, p, num) then (Refused, w)
    else
      var l := w.sets[p].lists[num];
      if how.GetTicket? then
        (Done(NextTicket(l.aticket)), SetLists(w, p, num, l.(aticket := NextTicket(l.aticket))))
      else if ticket != l.aticket then (Refused, w)
      else
        var w1 := if how.Remove? then w else w.(sets := AddRefTo(Create(w.sets, news), e.anchor));
        if err && !how.Remove? then (Refused, w1.(sets := DropAnchor(w1.sets, e.anchor)))
        else
          var list := Changed(l.active, how, nr, e);
          if list == None || !Has(w1.sets, p, num) then
            (Refused, if how.Remove? then w1 else w1.(sets := DropAnchor(w1.sets, e.anchor)))
          else
            Install(w1, p, num, list.value, if how.Remove? then Some(l.active[PositionOf(l.active, nr)]) else None)
  }

  // ---------------------------------------------------------- what stays the same

  /** From m to n rulesets went but none came; the ones that stay keep all lists
      but (p, num), the ones that went had nothing else. */
  ghost predicate Evolved(m: map<string, Ruleset>, n: map<string, Ruleset>, p: string, num: nat) {
    && Sized(m) && Sized(n) && n.Keys <= m.Keys
    && (forall q, k :: q in n && 0 <= k < RULESET_MAX && !(q == p && k == num) ==> n[q].lists[k] == m[q].lists[k])
    && (forall q, k :: q in m && q !in n && 0 <= k < RULESET_MAX && !(q == p && k == num) ==> ListsEmpty(m[q].lists[k]))
  }

  // Rulesets only came, all empty.
  ghost predicate Grown(m: map<string, Ruleset>, n: map<string, Ruleset>) {
    && Sized(m) && Sized(n) && m.Keys <= n.Keys
    && (forall q :: q in m ==> n[q].lists == m[q].lists)
    && (forall q, k :: q in n && q !in m && 0 <= k < RULESET_MAX ==> n[q].lists[k] == NO_LISTS)
  }

  lemma EvolvedTrans(a: map<string, Ruleset>, b: map<string, Ruleset>, c: map<string, Ruleset>, p: string, num: nat)
    requires Evolved(a, b, p, num) && Evolved(b, c, p, num)
    ensures Evolved(a, c, p, num)
  {
  }

  lemma ShrunkEvolved(m: map<string, Ruleset>, n: map<string, Ruleset>, p: string, num: nat)
    requires Sized(m) && Shrunk(m, n)
    ensures Evolved(m, n, p, num)
    ensures Has(m, p, num) && !ListsEmpty(m[p].lists[num]) ==> p in n
    ensures Has(n, p, num) ==> n[p].lists[num] == m[p].lists[num]
  {
  }

  lemma SetEvolved(w: World, p: string, num: nat, l: Lists)
    requires Sized(w.sets) && Has(w.sets, p, num)
    ensures Evolved(w.sets, SetLists(w, p, num, l).sets, p, num)
    ensures SetLists(w, p, num, l).sets[p].lists[num] == l
  {
  }

  lemma {:induction false} CreateGrows(m: map<string, Ruleset>, news: seq<New>)
    requires Sized(m)
    ensures Grown(m, Create(m, news))
    decreases |news|
  {
    if news != [] {
      CreateGrows(if news[0].path in m then m else m[news[0].path := EmptyRuleset(news[0].parent)], news[1..]);
    }
  }

  lemma AddRefGrows(m: map<string, Ruleset>, anchor: Option<string>)
    requires Sized(m)
    ensures Grown(m, AddRefTo(m, anchor)) && Grown(AddRefTo(m, anchor), m)
  {
  }

  lemma PurgeOneEffect(w: World, p: string, num: nat)
    requires Sized(w.sets) && Has(w.sets, p, num) && w.sets[p].lists[num].inactive != []
    ensures var w1 := PurgeOne(w, p, num);
            var l := w.sets[p].lists[num];
            && Evolved(w.sets, w1.sets, p, num) && Sized(w1.sets)
            && (p in w1.sets ==> w1.sets[p].lists[num] == l.(inactive := l.inactive[1..]))
            && (p !in w1.sets ==> ListsEmpty(l.(inactive := [])))
  {
    hide Evolved, RmRule;
    var l := w.sets[p].lists[num];
    var l1 := l.(inactive := l.inactive[1..]);
    var w0 := Popped(w, p, num);
    SetEvolved(w, p, num, l1);
    EvolvedSized(w.sets, w0.sets, p, num);
    RmRuleShrinks(w0, l.inactive[0]);
    var w1 := RmRule(w0, l.inactive[0]);
    ShrunkEvolved(w0.sets, w1.sets, p, num);
    EvolvedSized(w0.sets, w1.sets, p, num);
    EvolvedTrans(w.sets, w0.sets, w1.sets, p, num);
  }

  lemma {:induction false} PurgeEffect(w: World, p: string, num: nat)
    requires Sized(w.sets) && Has(w.sets, p, num)
    ensures var w1 := Purge(w, p, num);
            var l := w.sets[p].lists[num];
            && Evolved(w.sets, w1.sets, p, num) && Sized(w1.sets)
            && (p in w1.sets ==> w1.sets[p].lists[num] == l.(inactive := []))
            && (p !in w1.sets ==> ListsEmpty(l.(inactive := [])))
    decreases |w.sets[p].lists[num].inactive|
  {
    hide Evolved, PurgeOne;
    if w.sets[p].lists[num].inactive == [] {
      EvolvedRefl(w.sets, p, num);
    } else {
      var w1 := PurgeOne(w, p, num);
      PurgeOneEffect(w, p, num);
      if p in w1.sets {
        PurgeEffect(w1, p, num);
        EvolvedTrans(w.sets, w1.sets, Purge(w1, p, num).sets, p, num);
      }
    }
  }

  lemma EvolvedSized(m: map<string, Ruleset>, n: map<string, Ruleset>, p: string, num: nat)
    requires Evolved(m, n, p, num)
    ensures Sized(m) && Sized(n)
  {
  }

  // What pf_begin_rules, pf_rollback_rules and pf_commit_rules do to (p, num).
  lemma BeginEffect(w0: World, p: string, num: nat, news: seq<New>)
    requires Sized(w0.sets)
    ensures var m := Create(w0.sets, news);
      var (t, w1) := Begin(w0, p, num, news);
      && Grown(w0.sets, m)
      && (num < RULESET_MAX ==> Evolved(m, w1.sets, p, num))
      && (num >= RULESET_MAX ==> t == Refused && w1 == w0)
      && (t.Refused? && num < RULESET_MAX ==> p !in m && w1.sets == m)
      && (t.Done? ==> num < RULESET_MAX && p in m && p in w1.sets)
      && (t.Done? ==> t.ticket == NextTicket(m[p].lists[num].iticket))
      && (t.Done? ==> w1.sets[p].lists[num] == m[p].lists[num].(inactive := [], iticket := t.ticket, open := true))
      && (t.Lost? ==> num < RULESET_MAX && p in m && p !in w1.sets)
      && (t.Lost? ==> !m[p].lists[num].open && m[p].lists[num].active == [])
  {
    hide Evolved, Grown, Purge, Create;
    CreateGrows(w0.sets, news);
    var w := w0.(sets := Create(w0.sets, news));
    GrownSized(w0.sets, w.sets);
    if num < RULESET_MAX {
      if Has(w.sets, p, num) {
        var l := w.sets[p].lists[num];
        PurgeEffect(w, p, num);
        var w1 := Purge(w, p, num);
        if Has(w1.sets, p, num) {
          var l2 := w1.sets[p].lists[num].(iticket := NextTicket(l.iticket), open := true);
          SetEvolved(w1, p, num, l2);
          EvolvedTrans(w.sets, w1.sets, SetLists(w1, p, num, l2).sets, p, num);
        }
      } else {
        EvolvedRefl(w.sets, p, num);
      }
    }
  }

  lemma GrownSized(m: map<string, Ruleset>, n: map<string, Ruleset>)
    requires Grown(m, n)
    ensures Sized(m) && Sized(n)
  {
  }

  lemma EvolvedRefl(m: map<string, Ruleset>, p: string, num: nat)
    requires Sized(m)
    ensures Evolved(m, m, p, num)
  {
  }

  lemma RollbackEffect(w: World, p: string, num: nat, ticket: nat)
    requires Sized(w.sets) && IsOpen(w.sets, p, num, ticket)
    ensures var w1 := Rollback(w, p, num, ticket);
      && Evolved(w.sets, w1.sets, p, num) && p in w1.sets
      && w1.sets[p].lists[num] == w.sets[p].lists[num].(inactive := [], open := false)
  {
    hide Evolved, Purge;
    PurgeEffect(w, p, num);
    var w1 := Purge(w, p, num);
    var l2 := w1.sets[p].lists[num].(open := false);
    SetEvolved(w1, p, num, l2);
    EvolvedTrans(w.sets, w1.sets, SetLists(w1, p, num, l2).sets, p, num);
  }

  lemma CommitEffect(w: World, p: string, num: nat, ticket: nat)
    requires Sized(w.sets) && IsOpen(w.sets, p, num, ticket)
    ensures Commit(w, p, num, ticket).Some?
    ensures var l := w.sets[p].lists[num];
      var w1 := Commit(w, p, num, ticket).value;
      && Evolved(w.sets, w1.sets, p, num)
      && (p in w1.sets ==> w1.sets[p].lists[num] == Lists(WithSkips(l.inactive), [], l.iticket, l.iticket, false))
      && (p !in w1.sets ==> l.inactive == [])
  {
    hide Evolved, Purge, RemoveIfEmpty, WithSkips;
    var l := w.sets[p].lists[num];
    var l1 := Lists(WithSkips(l.inactive), l.active, l.iticket, l.iticket, true);
    var w0 := SetLists(w, p, num, l1);
    SetEvolved(w, p, num, l1);
    EvolvedSized(w.sets, w0.sets, p, num);
    PurgeEffect(w0, p, num);
    var w1 := Purge(w0, p, num);
    EvolvedTrans(w.sets, w0.sets, w1.sets, p, num);
    var w2 := SetLists(w1, p, num, w1.sets[p].lists[num].(open := false));
    SetEvolved(w1, p, num, w1.sets[p].lists[num].(open := false));
    EvolvedTrans(w.sets, w1.sets, w2.sets, p, num);
    EvolvedSized(w.sets, w2.sets, p, num);
    RemoveShrinks(w2.sets, p);
    ShrunkEvolved(w2.sets, RemoveIfEmpty(w2.sets, p), p, num);
    EvolvedTrans(w.sets, w2.sets, RemoveIfEmpty(w2.sets, p), p, num);
  }

  lemma TakeOutEffect(w: World, p: string, num: nat, list: seq<Entry>, gone: Option<Entry>)
    requires Sized(w.sets) && Has(w.sets, p, num)
    ensures var l, n := w.sets[p].lists[num], TakeOut(w, p, num, list, gone).sets;
            && Evolved(w.sets, n, p, num) && Sized(n)
            && (p in n ==> n[p].lists[num] == l.(active := list))
            && (p !in n ==> ListsEmpty(l.(active := list)))
  {
    hide Evolved, RmRule;
    var w1 := SetLists(w, p, num, w.sets[p].lists[num].(active := list));
    SetEvolved(w, p, num, w.sets[p].lists[num].(active := list));
    EvolvedSized(w.sets, w1.sets, p, num);
    EvolvedRefl(w1.sets, p, num);
    if gone.Some? {
      RmRuleShrinks(w1, gone.value);
      ShrunkEvolved(w1.sets, RmRule(w1, gone.value).sets, p, num);
      EvolvedSized(w1.sets, RmRule(w1, gone.value).sets, p, num);
      EvolvedTrans(w.sets, w1.sets, RmRule(w1, gone.value).sets, p, num);
    }
  }

  lemma InstallEffect(w: World, p: string, num: nat, list: seq<Entry>, gone: Option<Entry>)
    requires Sized(w.sets) && Has(w.sets, p, num)
    ensures var l := w.sets[p].lists[num];
            var (reply, w1) := Install(w, p, num, list, gone);
            && !reply.Refused? && Evolved(w.sets, w1.sets, p, num)
            && (p in w1.sets ==>
                w1.sets[p].lists[num] == l.(active := WithSkips(Numbered(list)), aticket := NextTicket(l.aticket)))
            && (p !in w1.sets ==> list == [] && !l.open && l.inactive == [])
            && (reply.Lost? ==> p !in w1.sets)
  {
    hide Evolved, TakeOut, RemoveIfEmpty, WithSkips, Numbered;
    var w1 := TakeOut(w, p, num, list, gone);
    TakeOutEffect(w, p, num, list, gone);
    if Has(w1.sets, p, num) {
      var l := w1.sets[p].lists[num];
      var l2 := l.(active := WithSkips(Numbered(l.active)), aticket := NextTicket(l.aticket));
      var w2 := SetLists(w1, p, num, l2);
      SetEvolved(w1, p, num, l2);
      EvolvedSized(w1.sets, w2.sets, p, num);
      EvolvedTrans(w.sets, w1.sets, w2.sets, p, num);
      RemoveShrinks(w2.sets, p);
      ShrunkEvolved(w2.sets, RemoveIfEmpty(w2.sets, p), p, num);
      EvolvedTrans(w.sets, w2.sets, RemoveIfEmpty(w2.sets, p), p, num);
    }
  }

  // ------------------------------------------------------------------------ runs

  /** A request. `NoLonger` ends the use of a rule by states and source nodes. */
  datatype Op =
    | BeginOp(p: string, num: nat, news: seq<New>)
    | AddOp(p: string, num: nat, ticket: nat, e: Entry, news: seq<New>, err: bool)
    | RollbackOp(p: string, num: nat, ticket: nat)
    | CommitOp(p: string, num: nat, ticket: nat)
    | ChangeOp(p: string, num: nat, how: Change, ticket: nat, nr: int, e: Entry, news: seq<New>, err: bool)
    | InUse(id: nat)
    | NoLonger(id: nat)

  function Reap(w: World, list: seq<Entry>, id: nat): World
    decreases |list|
  {
    if list == [] then w
    else if list[0].id == id then Reap(w.(sets := DropAnchor(w.sets, list[0].anchor)), list[1..], id)
    else Reap(w.(detached := w.detached + [list[0]]), list[1..], id)
  }

  function Step(w: World, op: Op): World {
    match op
    case BeginOp(p, num, news) => Begin(w, p, num, news).1
    case AddOp(p, num, ticket, e, news, err) => Add(w, p, num, ticket, e, news, err).1
    case RollbackOp(p, num, ticket) => Rollback(w, p, num, ticket)
    case CommitOp(p, num, ticket) => if Commit(w, p, num, ticket).Some? then Commit(w, p, num, ticket).value else w
    case ChangeOp(p, num, how, ticket, nr, e, news, err) => ChangeRule(w, p, num, how, ticket, nr, e, news, err).1
    case InUse(id) => w.(busy := w.busy + {id})
    case NoLonger(id) => Reap(w.(busy := w.busy - {id}, detached := []), w.detached, id)
  }

  /** What a loader believes, from the answers to its requests alone: under which
      ticket a list is being loaded, and the rules accepted since that ticket. */
  type Loads = map<(string, nat), (nat, seq<Entry>)>

  function Believe(t: Loads, w: World, op: Op): Loads {
    match op
    case BeginOp(p, num, news) =>
      var ticket := Begin(w, p, num, news).0;
      if ticket.Done? then t[(p, num) := (ticket.ticket, [])] else t
    case AddOp(p, num, ticket, e, news, err) =>
      if Add(w, p, num, ticket, e, news, err).0 && (p, num) in t && t[(p, num)].0 == ticket
      then t[(p, num) := (ticket, t[(p, num)].1 + [Given(e)])] else t
    case RollbackOp(p, num, ticket) =>
      if (p, num) in t && t[(p, num)].0 == ticket then t - {(p, num)} else t
    case CommitOp(p, num, ticket) =>
      if Commit(w, p, num, ticket).Some? then t - {(p, num)} else t
    case _ => t
  }

  /** One list against the loader's belief about it. */
  ghost predicate ListOk(l: Lists, t: Loads, key: (string, nat)) {
    && ActiveOk(l.active) && NumberedFromZero(l.inactive)
    && (key in t <==> l.open)
    && (l.open ==> t[key] == (l.iticket, GivenAll(l.inactive)))
  }

  ghost predicate Inv(w: World, t: Loads) {
    && Sized(w.sets)
    && (forall q, k :: q in w.sets && 0 <= k < RULESET_MAX ==> ListOk(w.sets[q].lists[k], t, (q, k)))
    && (forall key :: key in t ==> key.0 in w.sets && key.1 < RULESET_MAX)
  }

  // The two beliefs agree but about one list.
  ghost predicate SameBelief(t: Loads, u: Loads, p: string, num: nat) {
    forall key :: key != (p, num) ==> (key in t <==> key in u) && (key in t ==> t[key] == u[key])
  }

  lemma NoListsOk(t: Loads, key: (string, nat))
    requires key !in t
    ensures ListOk(NO_LISTS, t, key)
  {
  }

  lemma GrownInv(w: World, t: Loads, n: map<string, Ruleset>)
    requires Inv(w, t) && Grown(w.sets, n)
    ensures Inv(w.(sets := n), t)
  {
    hide ListOk;
    forall q, k | q in n && 0 <= k < RULESET_MAX
      ensures ListOk(n[q].lists[k], t, (q, k))
    {
      if q !in w.sets {
        NoListsOk(t, (q, k));
      }
    }
  }

  // An open list is not empty, so no belief is lost with a ruleset.
  lemma EvolvedInv(w: World, t: Loads, w1: World, u: Loads, p: string, num: nat)
    requires Inv(w, t) && Evolved(w.sets, w1.sets, p, num) && SameBelief(t, u, p, num)
    requires p in w1.sets && num < RULESET_MAX ==> ListOk(w1.sets[p].lists[num], u, (p, num))
    requires (p, num) in u ==> p in w1.sets && num < RULESET_MAX
    ensures Inv(w1, u)
  {
    hide ActiveOk, NumberedFromZero;
    forall q, k | q in w1.sets && 0 <= k < RULESET_MAX
      ensures ListOk(w1.sets[q].lists[k], u, (q, k))
    {
      if !(q == p && k == num) {
        assert ListOk(w.sets[q].lists[k], t, (q, k));
      }
    }
    forall key | key in u
      ensures key.0 in w1.sets && key.1 < RULESET_MAX
    {
      if key != (p, num) {
        assert ListOk(w.sets[key.0].lists[key.1], t, key);
      }
    }
  }

  lemma NumberedAppend(list: seq<Entry>, e: Entry)
    requires NumberedFromZero(list)
    ensures var nr := if list == [] then 0 else list[|list| - 1].body.nr + 1;
      var after := list + [e.(body := e.body.(nr := nr))];
      NumberedFromZero(after) && GivenAll(after) == GivenAll(list) + [Given(e)]
  {
  }

  lemma EmptyListOk(l: Lists, t: Loads, key: (string, nat))
    requires ActiveOk(l.active) && l.inactive == []
    requires key in t <==> l.open
    requires l.open ==> t[key] == (l.iticket, [])
    ensures ListOk(l, t, key)
  {
  }

  lemma BeginInv(w: World, t: Loads, p: string, num: nat, news: seq<New>)
    requires Inv(w, t)
    ensures Inv(Begin(w, p, num, news).1, Believe(t, w, BeginOp(p, num, news)))
  {
    hide Begin, Create, Grown, Evolved, ActiveOk;
    BeginEffect(w, p, num, news);
    var m := Create(w.sets, news);
    var (ticket, w1) := Begin(w, p, num, news);
    var u := Believe(t, w, BeginOp(p, num, news));
    GrownInv(w, t, m);
    GrownSized(w.sets, m);
    if num < RULESET_MAX {
      EvolvedSized(m, w1.sets, p, num);
      if ticket.Done? {
        assert ListOk(m[p].lists[num], t, (p, num));
        EmptyListOk(w1.sets[p].lists[num], u, (p, num));
      } else if p !in m {
        assert (p, num) !in t;
        NotCreated(m, w1.sets, p, num);
      } else {
        assert ListOk(m[p].lists[num], t, (p, num));
      }
      EvolvedInv(w.(sets := m), t, w1, u, p, num);
    }
  }

  lemma NotCreated(m: map<string, Ruleset>, n: map<string, Ruleset>, p: string, num: nat)
    requires Evolved(m, n, p, num) && p !in m
    ensures p !in n
  {
  }

  lemma RollbackInv(w: World, t: Loads, p: string, num: nat, ticket: nat)
    requires Inv(w, t)
    ensures Inv(Rollback(w, p, num, ticket), Believe(t, w, RollbackOp(p, num, ticket)))
  {
    hide Evolved, ActiveOk, Purge;
    if num < RULESET_MAX && p in w.sets {
      assert ListOk(w.sets[p].lists[num], t, (p, num));
    }
    if IsOpen(w.sets, p, num, ticket) {
      var w1, u := Rollback(w, p, num, ticket), Believe(t, w, RollbackOp(p, num, ticket));
      RollbackEffect(w, p, num, ticket);
      EvolvedSized(w.sets, w1.sets, p, num);
      EmptyListOk(w1.sets[p].lists[num], u, (p, num));
      EvolvedInv(w, t, w1, u, p, num);
    }
  }

  lemma CommitInv(w: World, t: Loads, p: string, num: nat, ticket: nat)
    requires Inv(w, t) && IsOpen(w.sets, p, num, ticket)
    ensures Commit(w, p, num, ticket).Some?
    ensures Inv(Commit(w, p, num, ticket).value, t - {(p, num)})
  {
    hide Evolved, ActiveOk, Commit;
    CommitEffect(w, p, num, ticket);
    var l := w.sets[p].lists[num];
    var w1, u := Commit(w, p, num, ticket).value, t - {(p, num)};
    assert ListOk(l, t, (p, num));
    EvolvedSized(w.sets, w1.sets, p, num);
    WithSkipsOk(l.inactive);
    if p in w1.sets {
      EmptyListOk(w1.sets[p].lists[num], u, (p, num));
    }
    EvolvedInv(w, t, w1, u, p, num);
  }

  /** A commit that succeeds was given the ticket of an open load, and makes active
      exactly the rules accepted under it, in order, numbered, with their own skip
      pointers. An empty load may leave no ruleset. */
  lemma CommitLoadsWhatWasAdded(w: World, t: Loads, p: string, num: nat, ticket: nat)
    requires Inv(w, t)
    ensures Commit(w, p, num, ticket).Some? <==> (p, num) in t && t[(p, num)].0 == ticket
    ensures Commit(w, p, num, ticket).Some? ==>
      var m := Commit(w, p, num, ticket).value.sets;
      if p in m then
        num < |m[p].lists| && ActiveOk(m[p].lists[num].active) && GivenAll(m[p].lists[num].active) == t[(p, num)].1
      else t[(p, num)].1 == []
  {
    hide ActiveOk, Evolved;
    if num < RULESET_MAX && p in w.sets {
      assert ListOk(w.sets[p].lists[num], t, (p, num));
    }
    if IsOpen(w.sets, p, num, ticket) {
      CommitEffect(w, p, num, ticket);
      EvolvedSized(w.sets, Commit(w, p, num, ticket).value.sets, p, num);
      WithSkipsOk(w.sets[p].lists[num].inactive);
    }
  }

  // Freeing a rule keeps the invariant: only rulesets without lists may go.
  lemma ShrunkInv(w: World, t: Loads, w1: World)
    requires Inv(w, t) && Shrunk(w.sets, w1.sets)
    ensures Inv(w1, t)
  {
    hide Evolved, ListOk;
    ShrunkEvolved(w.sets, w1.sets, "", RULESET_MAX);
    EvolvedInv(w, t, w1, t, "", RULESET_MAX);
  }

  lemma SetInv(w: World, t: Loads, u: Loads, p: string, num: nat, l: Lists)
    requires Inv(w, t) && num < RULESET_MAX && Has(w.sets, p, num) && SameBelief(t, u, p, num)
    requires ListOk(l, u, (p, num))
    ensures Inv(SetLists(w, p, num, l), u)
  {
    hide Evolved, ListOk;
    SetEvolved(w, p, num, l);
    EvolvedInv(w, t, SetLists(w, p, num, l), u, p, num);
  }

  lemma CreateInv(w: World, t: Loads, news: seq<New>, anchor: Option<string>)
    requires Inv(w, t)
    ensures Inv(w.(sets := AddRefTo(Create(w.sets, news), anchor)), t)
    ensures Grown(w.sets, AddRefTo(Create(w.sets, news), anchor))
  {
    var m := Create(w.sets, news);
    CreateGrows(w.sets, news);
    GrownInv(w, t, m);
    AddRefGrows(m, anchor);
    GrownInv(w.(sets := m), t, AddRefTo(m, anchor));
  }

  lemma GrownKeeps(m: map<string, Ruleset>, n: map<string, Ruleset>, p: string, num: nat)
    requires Grown(m, n) && Has(m, p, num)
    ensures Has(n, p, num) && n[p].lists == m[p].lists
  {
  }

  lemma AddInv(w: World, t: Loads, p: string, num: nat, ticket: nat, e: Entry, news: seq<New>, err: bool)
    requires Inv(w, t)
    ensures Inv(Add(w, p, num, ticket, e, news, err).1, Believe(t, w, AddOp(p, num, ticket, e, news, err)))
  {
    hide Create, AddRefTo, Grown, ListOk, DropAnchor, Inv, Given;
    if num < RULESET_MAX && Has(w.sets, p, num) && w.sets[p].lists[num].iticket == ticket {
      var w1 := w.(sets := AddRefTo(Create(w.sets, news), e.anchor));
      CreateInv(w, t, news, e.anchor);
      GrownKeeps(w.sets, w1.sets, p, num);
      if err {
        DropShrinks(w1.sets, e.anchor);
        ShrunkInv(w1, t, w1.(sets := DropAnchor(w1.sets, e.anchor)));
      } else {
        var l := w1.sets[p].lists[num];
        var u := Believe(t, w, AddOp(p, num, ticket, e, news, err));
        var nr := if l.inactive == [] then 0 else l.inactive[|l.inactive| - 1].body.nr + 1;
        AppendOk(l, t, u, (p, num), e);
        SetInv(w1, t, u, p, num, l.(inactive := l.inactive + [e.(body := e.body.(nr := nr))]));
      }
    }
  }

  lemma AppendOk(l: Lists, t: Loads, u: Loads, key: (string, nat), e: Entry)
    requires ListOk(l, t, key)
    requires u == if key in t && t[key].0 == l.iticket then t[key := (l.iticket, t[key].1 + [Given(e)])] else t
    ensures var nr := if l.inactive == [] then 0 else l.inactive[|l.inactive| - 1].body.nr + 1;
            ListOk(l.(inactive := l.inactive + [e.(body := e.body.(nr := nr))]), u, key)
  {
    hide ActiveOk;
    NumberedAppend(l.inactive, e);
  }

  lemma ChangedOk(l: Lists, t: Loads, key: (string, nat), list: seq<Entry>, ticket: Ticket)
    requires ListOk(l, t, key)
    ensures ListOk(l.(active := WithSkips(Numbered(list)), aticket := ticket), t, key)
  {
    hide ActiveOk, WithSkips;
    WithSkipsOk(Numbered(list));
  }

  lemma ListOfInv(w: World, t: Loads, p: string, num: nat)
    requires Inv(w, t) && num < RULESET_MAX && Has(w.sets, p, num)
    ensures ListOk(w.sets[p].lists[num], t, (p, num))
  {
  }

  lemma InstallInv(w: World, t: Loads, p: string, num: nat, list: seq<Entry>, gone: Option<Entry>)
    requires Inv(w, t) && num < RULESET_MAX && Has(w.sets, p, num)
    ensures Inv(Install(w, p, num, list, gone).1, t)
  {
    hide Evolved, Install, ActiveOk, WithSkips, Numbered;
    var l := w.sets[p].lists[num];
    InstallEffect(w, p, num, list, gone);
    assert ListOk(l, t, (p, num));
    ChangedOk(l, t, (p, num), list, NextTicket(l.aticket));
    EvolvedInv(w, t, Install(w, p, num, list, gone).1, t, p, num);
  }

  lemma ChangeInv(w: World, t: Loads, p: string, num: nat, how: Change, ticket: nat, nr: int, e: Entry,
                  news: seq<New>, err: bool)
    requires Inv(w, t)
    ensures Inv(ChangeRule(w, p, num, how, ticket, nr, e, news, err).1, t)
  {
    hide Create, AddRefTo, Grown, ListOk, DropAnchor, Install, Inv;
    if num < RULESET_MAX && Has(w.sets, p, num) {
      var l := w.sets[p].lists[num];
      if how.GetTicket? {
        ListOfInv(w, t, p, num);
        TicketOk(l, t, (p, num));
        SetInv(w, t, t, p, num, l.(aticket := NextTicket(l.aticket)));
      } else if ticket == l.aticket {
        var w1 := if how.Remove? then w else w.(sets := AddRefTo(Create(w.sets, news), e.anchor));
        if !how.Remove? {
          CreateInv(w, t, news, e.anchor);
          GrownKeeps(w.sets, w1.sets, p, num);
        }
        DropShrinks(w1.sets, e.anchor);
        ShrunkInv(w1, t, w1.(sets := DropAnchor(w1.sets, e.anchor)));
        var list := Changed(l.active, how, nr, e);
        if !(err && !how.Remove?) && list.Some? {
          InstallInv(w1, t, p, num, list.value,
            if how.Remove? then Some(l.active[PositionOf(l.active, nr)]) else None);
        }
      }
    }
  }

  lemma TicketOk(l: Lists, t: Loads, key: (string, nat))
    requires ListOk(l, t, key)
    ensures ListOk(l.(aticket := NextTicket(l.aticket)), t, key)
  {
    hide ActiveOk;
  }

  lemma {:induction false} ReapShrinks(w: World, list: seq<Entry>, id: nat)
    ensures Shrunk(w.sets, Reap(w, list, id).sets)
    decreases |list|
  {
    if list != [] {
      if list[0].id == id {
        var w1 := w.(sets := DropAnchor(w.sets, list[0].anchor));
        DropShrinks(w.sets, list[0].anchor);
        ReapShrinks(w1, list[1..], id);
        ShrunkTrans(w.sets, w1.sets, Reap(w1, list[1..], id).sets);
      } else {
        ReapShrinks(w.(detached := w.detached + [list[0]]), list[1..], id);
      }
    }
  }

  /** Whether a request loses its own ruleset: what follows is undefined. Module
      LostRulesets says exactly when. */
  predicate Loses(w: World, op: Op) {
    match op
    case BeginOp(p, num, news) => Begin(w, p, num, news).0.Lost?
    case ChangeOp(p, num, how, ticket, nr, e, news, err) => ChangeRule(w, p, num, how, ticket, nr, e, news, err).0.Lost?
    case _ => false
  }

  lemma StepKeepsInv(w: World, t: Loads, op: Op)
    requires Inv(w, t) && !Loses(w, op)
    ensures Inv(Step(w, op), Believe(t, w, op))
  {
    hide Sized, ListOk, Begin, Add, Rollback, Commit, ChangeRule, Reap, Inv, Loses;
    match op
    case BeginOp(p, num, news) => BeginInv(w, t, p, num, news);
    case AddOp(p, num, ticket, e, news, err) => AddInv(w, t, p, num, ticket, e, news, err);
    case RollbackOp(p, num, ticket) => RollbackInv(w, t, p, num, ticket);
    case CommitOp(p, num, ticket) => CommitStepInv(w, t, p, num, ticket);
    case ChangeOp(p, num, how, ticket, nr, e, news, err) => ChangeInv(w, t, p, num, how, ticket, nr, e, news, err);
    case InUse(id) => SameSetsInv(w, t, Step(w, op));
    case NoLonger(id) =>
      var w1 := w.(busy := w.busy - {id}, detached := []);
      SameSetsInv(w, t, w1);
      ReapShrinks(w1, w.detached, id);
      ShrunkInv(w1, t, Step(w, op));
  }

  lemma SameSetsInv(w: World, t: Loads, w1: World)
    requires Inv(w, t) && w1.sets == w.sets
    ensures Inv(w1, t)
  {
  }

  lemma CommitStepInv(w: World, t: Loads, p: string, num: nat, ticket: nat)
    requires Inv(w, t)
    ensures Inv(Step(w, CommitOp(p, num, ticket)), Believe(t, w, CommitOp(p, num, ticket)))
  {
    hide Inv, ListOk, Evolved;
    if IsOpen(w.sets, p, num, ticket) {
      CommitInv(w, t, p, num, ticket);
    }
  }

  function Run(w: World, t: Loads, ops: seq<Op>): (World, Loads)
    decreases |ops|
  {
    if ops == [] then (w, t) else Run(Step(w, ops[0]), Believe(t, w, ops[0]), ops[1..])
  }

  // A run in which no request loses its ruleset.
  ghost predicate Defined(w: World, ops: seq<Op>)
    decreases |ops|
  {
    ops == [] || (!Loses(w, ops[0]) && Defined(Step(w, ops[0]), ops[1..]))
  }

  lemma {:induction false} RunKeepsInv(w: World, t: Loads, ops: seq<Op>)
    requires Inv(w, t) && Defined(w, ops)
    ensures Inv(Run(w, t, ops).0, Run(w, t, ops).1)
    decreases |ops|
  {
    hide Inv, Step, Believe, Loses;
    if ops != [] {
      StepKeepsInv(w, t, ops[0]);
      RunKeepsInv(Step(w, ops[0]), Believe(t, w, ops[0]), ops[1..]);
    }
  }

  /** After any run of requests from the start that is defined: every active rule has its position
      as number and the skip pointers of its list, and a commit succeeds exactly
      under the ticket of an open load and makes active exactly the rules accepted
      under that ticket. */
  lemma AnyRunLoadsWhatWasAdded(ops: seq<Op>, p: string, num: nat, ticket: nat)
    requires Defined(INITIAL, ops)
    ensures var (w, t) := Run(INITIAL, map[], ops);
            && (forall q, k :: q in w.sets && 0 <= k < |w.sets[q].lists| ==> ActiveOk(w.sets[q].lists[k].active))
            && (Commit(w, p, num, ticket).Some? <==> (p, num) in t && t[(p, num)].0 == ticket)
            && (Commit(w, p, num, ticket).Some? ==>
                GivenAll(ActiveAt(Commit(w, p, num, ticket).value.sets, p, num)) == t[(p, num)].1
                && ActiveOk(ActiveAt(Commit(w, p, num, ticket).value.sets, p, num)))
  {
    hide Commit, Evolved, ActiveOk, Run;
    InitialInv();
    RunKeepsInv(INITIAL, map[], ops);
    var (w, t) := Run(INITIAL, map[], ops);
    CommitLoadsWhatWasAdded(w, t, p, num, ticket);
    forall q, k | q in w.sets && 0 <= k < |w.sets[q].lists|
      ensures ActiveOk(w.sets[q].lists[k].active)
    {
      assert ListOk(w.sets[q].lists[k], t, (q, k));
    }
    NoRulesOk();
  }

  lemma InitialInv()
    ensures Inv(INITIAL, map[])
  {
    hide ActiveOk;
    NoRulesOk();
  }

  lemma NoRulesOk()
    ensures ActiveOk([]) && GivenAll([]) == []
  {
  }

  // ------------------------------------------------------ who may touch a list

  // The active list of (p, num); a ruleset that is gone has none.
  function ActiveAt(m: map<string, Ruleset>, p: string, num: nat): seq<Entry> {
    if Has(m, p, num) then m[p].lists[num].active else []
  }

  lemma EvolvedActive(m: map<string, Ruleset>, n: map<string, Ruleset>, p: string, num: nat, q: string, k: nat)
    requires Evolved(m, n, p, num) && (q, k) != (p, num)
    ensures ActiveAt(n, q, k) == ActiveAt(m, q, k)
  {
  }

  lemma ShrunkActive(m: map<string, Ruleset>, n: map<string, Ruleset>, q: string, k: nat)
    requires Shrunk(m, n)
    ensures ActiveAt(n, q, k) == ActiveAt(m, q, k)
  {
    if Has(m, q, k) && q !in n {
      assert ListsEmpty(m[q].lists[k]);
    }
  }

  lemma CreatedActive(m: map<string, Ruleset>, news: seq<New>, anchor: Option<string>, q: string, k: nat)
    requires Sized(m)
    ensures var n := AddRefTo(Create(m, news), anchor);
            && Grown(m, Create(m, news)) && Grown(m, n)
            && ActiveAt(Create(m, news), q, k) == ActiveAt(m, q, k) && ActiveAt(n, q, k) == ActiveAt(m, q, k)
  {
    CreateGrows(m, news);
    AddRefGrows(Create(m, news), anchor);
  }

  lemma BeginTouches(w: World, p: string, num: nat, news: seq<New>, q: string, k: nat)
    requires Sized(w.sets)
    ensures ActiveAt(Begin(w, p, num, news).1.sets, q, k) == ActiveAt(w.sets, q, k)
  {
    hide Begin, Grown, Evolved;
    BeginEffect(w, p, num, news);
    CreatedActive(w.sets, news, None, q, k);
    var m, w1 := Create(w.sets, news), Begin(w, p, num, news).1;
    if num < RULESET_MAX {
      EvolvedSized(m, w1.sets, p, num);
      if (q, k) != (p, num) {
        EvolvedActive(m, w1.sets, p, num, q, k);
      } else if p !in m {
        NotCreated(m, w1.sets, p, num);
      }
    }
  }

  lemma RollbackTouches(w: World, p: string, num: nat, ticket: nat, q: string, k: nat)
    requires Sized(w.sets)
    ensures ActiveAt(Rollback(w, p, num, ticket).sets, q, k) == ActiveAt(w.sets, q, k)
  {
    hide Evolved, Purge;
    if IsOpen(w.sets, p, num, ticket) {
      RollbackEffect(w, p, num, ticket);
      EvolvedSized(w.sets, Rollback(w, p, num, ticket).sets, p, num);
      if (q, k) != (p, num) {
        EvolvedActive(w.sets, Rollback(w, p, num, ticket).sets, p, num, q, k);
      }
    }
  }

  lemma AddTouches(w: World, p: string, num: nat, ticket: nat, e: Entry, news: seq<New>, err: bool, q: string, k: nat)
    requires Sized(w.sets)
    ensures ActiveAt(Add(w, p, num, ticket, e, news, err).1.sets, q, k) == ActiveAt(w.sets, q, k)
  {
    hide Grown, Create, AddRefTo, DropAnchor;
    CreatedActive(w.sets, news, e.anchor, q, k);
    var n := AddRefTo(Create(w.sets, news), e.anchor);
    DropShrinks(n, e.anchor);
    ShrunkActive(n, DropAnchor(n, e.anchor), q, k);
  }

  lemma ChangeTouches(w: World, p: string, num: nat, how: Change, ticket: nat, nr: int, e: Entry,
                      news: seq<New>, err: bool, q: string, k: nat)
    requires Sized(w.sets)
    requires (q, k) != (p, num) || how.GetTicket? || !Has(w.sets, p, num) || ticket != w.sets[p].lists[num].aticket
    ensures ActiveAt(ChangeRule(w, p, num, how, ticket, nr, e, news, err).1.sets, q, k) == ActiveAt(w.sets, q, k)
  {
    hide Grown, Evolved, Create, AddRefTo, DropAnchor, Install;
    var w1 := if how.Remove? then w else w.(sets := AddRefTo(Create(w.sets, news), e.anchor));
    CreatedActive(w.sets, news, e.anchor, q, k);
    GrownSized(w.sets, AddRefTo(Create(w.sets, news), e.anchor));
    DropShrinks(w1.sets, e.anchor);
    ShrunkActive(w1.sets, DropAnchor(w1.sets, e.anchor), q, k);
    if how.GetTicket? && Has(w.sets, p, num) {
      var l := w.sets[p].lists[num];
      SetEvolved(w, p, num, l.(aticket := NextTicket(l.aticket)));
      EvolvedSized(w.sets, SetLists(w, p, num, l.(aticket := NextTicket(l.aticket))).sets, p, num);
      if (q, k) != (p, num) {
        EvolvedActive(w.sets, SetLists(w, p, num, l.(aticket := NextTicket(l.aticket))).sets, p, num, q, k);
      }
    } else if num < RULESET_MAX && Has(w.sets, p, num) && Has(w1.sets, p, num) && (q, k) != (p, num) {
      var active := w.sets[p].lists[num].active;
      var list := Changed(active, how, nr, e);
      if list.Some? {
        var gone := if how.Remove? then Some(active[PositionOf(active, nr)]) else None;
        InstallEffect(w1, p, num, list.value, gone);
        EvolvedActive(w1.sets, Install(w1, p, num, list.value, gone).1.sets, p, num, q, k);
      }
    }
  }

  lemma CommitTouches(w: World, p: string, num: nat, ticket: nat, q: string, k: nat)
    requires Sized(w.sets) && IsOpen(w.sets, p, num, ticket) && (q, k) != (p, num)
    ensures Commit(w, p, num, ticket).Some?
    ensures ActiveAt(Commit(w, p, num, ticket).value.sets, q, k) == ActiveAt(w.sets, q, k)
  {
    hide Evolved, Commit;
    CommitEffect(w, p, num, ticket);
    EvolvedActive(w.sets, Commit(w, p, num, ticket).value.sets, p, num, q, k);
  }

  /** Whether a request may change the active list of (q, k): a commit of that list
      under the ticket of its open load, or a change under its current ticket. */
  predicate MayTouch(w: World, op: Op, q: string, k: nat) {
    match op
    case CommitOp(p, num, ticket) => (p, num) == (q, k) && IsOpen(w.sets, q, k, ticket)
    case ChangeOp(p, num, how, ticket, _, _, _, _) =>
      (p, num) == (q, k) && Has(w.sets, q, k) && ticket == w.sets[q].lists[k].aticket && !how.GetTicket?
    case _ => false
  }

  /** No other request changes what is active at (q, k): not one for another list,
      and not one with an outdated ticket. */
  lemma OnlyRightTicketTouches(w: World, op: Op, q: string, k: nat)
    requires Sized(w.sets) && !Loses(w, op) && !MayTouch(w, op, q, k)
    ensures ActiveAt(Step(w, op).sets, q, k) == ActiveAt(w.sets, q, k)
  {
    hide Begin, Add, Rollback, ChangeRule, Reap, Shrunk, ActiveAt, Loses;
    match op
    case BeginOp(p, num, news) => BeginTouches(w, p, num, news, q, k);
    case AddOp(p, num, ticket, e, news, err) => AddTouches(w, p, num, ticket, e, news, err, q, k);
    case RollbackOp(p, num, ticket) => RollbackTouches(w, p, num, ticket, q, k);
    case CommitOp(p, num, ticket) =>
      if IsOpen(w.sets, p, num, ticket) {
        CommitTouches(w, p, num, ticket, q, k);
      }
    case ChangeOp(p, num, how, ticket, nr, e, news, err) =>
      ChangeTouches(w, p, num, how, ticket, nr, e, news, err, q, k);
    case InUse(id) => assert Step(w, op).sets == w.sets;
    case NoLonger(id) =>
      ReapShrinks(w.(busy := w.busy - {id}, detached := []), w.detached, id);
      ShrunkActive(w.sets, Step(w, op).sets, q, k);
  }

  // ------------------------------------------------------------ empty ones do not stay

  /** No commit and no change leaves its ruleset behind unneeded. */
  lemma NoneStaysUnneeded(w: World, p: string, num: nat, ticket: nat, how: Change, nr: int, e: Entry,
                          news: seq<New>, err: bool)
    ensures var w1 := Commit(w, p, num, ticket);
      w1.Some? && p in w1.value.sets && num < |w1.value.sets[p].lists| ==> !Unneeded(w1.value.sets, p)
    ensures var (reply, w1) := ChangeRule(w, p, num, how, ticket, nr, e, news, err);
      reply.Done? && how != GetTicket && p in w1.sets ==> !Unneeded(w1.sets, p)
  {
    hide Purge, RemoveIfEmpty, WithSkips, Unneeded, Create, AddRefTo, DropAnchor, Changed, TakeOut, Numbered;
    forall m: map<string, Ruleset> | p in RemoveIfEmpty(m, p)
      ensures !Unneeded(RemoveIfEmpty(m, p), p)
    {
      StaysNeeded(m, p);
    }
  }

  lemma StaysNeeded(m: map<string, Ruleset>, p: string)
    requires p in RemoveIfEmpty(m, p)
    ensures !Unneeded(RemoveIfEmpty(m, p), p)
  {
    RemovesUnneeded(m, p);
    assert p in m;
    assert !IsEmpty(m, p);
  }
}
