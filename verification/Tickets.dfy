/** The tickets of loads and changes: when one is out of date, and what the loader
    then is refused. */
module Tickets {
  import opened Options
  import opened PfRules
  import opened Rulesets

  const TICKETS := 0x1_0000_0000

  /** The two tickets of a list as counters that never wrap: `active` that of its
      changes, `inactive` that of its loads. */
  datatype Count = Count(active: nat, inactive: nat)

  // What a request adds, going by its answer alone: a begin that is answered opens a
  // new load, a commit makes the load's ticket that of the active list, and a change
  // that is answered, or a request for a ticket, takes the active list's one further.
  function Counted(w: World, op: Op, p: string, num: nat, c: Count): Count {
    match op
    case BeginOp(q, k, news) =>
      if (q, k) == (p, num) && Begin(w, q, k, news).0.Done? then c.(inactive := c.inactive + 1) else c
    case CommitOp(q, k, ticket) =>
      if (q, k) == (p, num) && Commit(w, q, k, ticket).Some? then c.(active := c.inactive) else c
    case ChangeOp(q, k, how, ticket, nr, e, news, err) =>
      if (q, k) == (p, num) && ChangeRule(w, q, k, how, ticket, nr, e, news, err).0.Done?
      then c.(active := c.active + 1) else c
    case _ => c
  }

  function CountedAll(w: World, ops: seq<Op>, p: string, num: nat, c: Count): Count
    decreases |ops|
  {
    if ops == [] then c else CountedAll(Step(w, ops[0]), ops[1..], p, num, Counted(w, ops[0], p, num, c))
  }

  // The ruleset is there all the time.
  ghost predicate Stays(w: World, ops: seq<Op>, p: string)
    decreases |ops|
  {
    p in w.sets && (ops == [] || Stays(Step(w, ops[0]), ops[1..], p))
  }

  ghost predicate Shows(w: World, p: string, num: nat, c: Count) {
    Has(w.sets, p, num) && w.sets[p].lists[num].aticket == c.active % TICKETS
                        && w.sets[p].lists[num].iticket == c.inactive % TICKETS
  }

  // ------------------------------------------------------------------------ a step

  lemma NextIsNext(n: nat)
    ensures NextTicket(n % TICKETS) == (n + 1) % TICKETS
  {
  }

  lemma BeginShows(w: World, q: string, k: nat, news: seq<New>, p: string, num: nat, c: Count)
    requires Sized(w.sets) && Shows(w, p, num, c) && p in Begin(w, q, k, news).1.sets
    ensures Shows(Begin(w, q, k, news).1, p, num, Counted(w, BeginOp(q, k, news), p, num, c))
    ensures Begin(w, q, k, news).0.Done? && (q, k) == (p, num) ==>
      Begin(w, q, k, news).0.ticket == (c.inactive + 1) % TICKETS
  {
    hide Begin, Grown, Evolved, Create;
    var m, w1 := Create(w.sets, news), Begin(w, q, k, news).1;
    BeginEffect(w, q, k, news);
    GrownKeeps(w.sets, m, p, num);
    NextIsNext(c.inactive);
    if k < RULESET_MAX {
      EvolvedSized(m, w1.sets, q, k);
      EvolvedKeeps(m, w1.sets, q, k, p, num);
    }
  }

  lemma EvolvedKeeps(m: map<string, Ruleset>, n: map<string, Ruleset>, q: string, k: nat, p: string, num: nat)
    requires Evolved(m, n, q, k) && Has(m, p, num) && p in n
    ensures Has(n, p, num)
    ensures (p, num) != (q, k) ==> n[p].lists[num] == m[p].lists[num]
  {
  }

  lemma ShrunkKeeps(m: map<string, Ruleset>, n: map<string, Ruleset>, p: string, num: nat)
    requires Shrunk(m, n) && Has(m, p, num) && p in n
    ensures Has(n, p, num) && n[p].lists[num] == m[p].lists[num]
  {
  }

  lemma CommitShows(w: World, q: string, k: nat, ticket: nat, p: string, num: nat, c: Count)
    requires Sized(w.sets) && Shows(w, p, num, c) && Commit(w, q, k, ticket).Some?
    requires p in Commit(w, q, k, ticket).value.sets
    ensures Shows(Commit(w, q, k, ticket).value, p, num, Counted(w, CommitOp(q, k, ticket), p, num, c))
  {
    hide Evolved;
    CommitEffect(w, q, k, ticket);
    hide Commit;
    EvolvedKeeps(w.sets, Commit(w, q, k, ticket).value.sets, q, k, p, num);
  }

  lemma RollbackShows(w: World, q: string, k: nat, ticket: nat, p: string, num: nat, c: Count)
    requires Sized(w.sets) && Shows(w, p, num, c) && p in Rollback(w, q, k, ticket).sets
    ensures Shows(Rollback(w, q, k, ticket), p, num, c)
  {
    hide Evolved, Purge;
    if IsOpen(w.sets, q, k, ticket) {
      RollbackEffect(w, q, k, ticket);
      EvolvedKeeps(w.sets, Rollback(w, q, k, ticket).sets, q, k, p, num);
    }
  }

  // The ruleset of a new rule's anchor may come and, on an error, go.
  lemma AnchorShows(w: World, news: seq<New>, anchor: Option<string>, p: string, num: nat)
    requires Sized(w.sets) && Has(w.sets, p, num)
    ensures var n := AddRefTo(Create(w.sets, news), anchor);
      && Has(n, p, num) && n[p].lists == w.sets[p].lists && Sized(n)
      && (p in DropAnchor(n, anchor) ==>
            Has(DropAnchor(n, anchor), p, num) && DropAnchor(n, anchor)[p].lists == n[p].lists)
  {
    hide Create, AddRefTo, DropAnchor, Grown;
    var m, n := Create(w.sets, news), AddRefTo(Create(w.sets, news), anchor);
    CreateGrows(w.sets, news);
    GrownKeeps(w.sets, m, p, num);
    GrownSized(w.sets, m);
    AddRefGrows(m, anchor);
    GrownKeeps(m, n, p, num);
    GrownSized(m, n);
    DropShrinks(n, anchor);
  }

  lemma AddShows(w: World, q: string, k: nat, ticket: nat, e: Entry, news: seq<New>, err: bool,
                 p: string, num: nat, c: Count)
    requires Sized(w.sets) && Shows(w, p, num, c) && p in Add(w, q, k, ticket, e, news, err).1.sets
    ensures Shows(Add(w, q, k, ticket, e, news, err).1, p, num, c)
  {
    hide Create, AddRefTo, DropAnchor;
    AnchorShows(w, news, e.anchor, p, num);
  }

  lemma InstallShows(w: World, q: string, k: nat, list: seq<Entry>, gone: Option<Entry>, p: string, num: nat, c: Count)
    requires Sized(w.sets) && Shows(w, p, num, c) && Has(w.sets, q, k) && p in Install(w, q, k, list, gone).1.sets
    requires !Install(w, q, k, list, gone).0.Lost?
    ensures Shows(Install(w, q, k, list, gone).1, p, num, if (q, k) == (p, num) then c.(active := c.active + 1) else c)
    ensures Install(w, q, k, list, gone).0.Done?
  {
    hide Install, Evolved, WithSkips, Numbered;
    InstallEffect(w, q, k, list, gone);
    NextIsNext(c.active);
    EvolvedKeeps(w.sets, Install(w, q, k, list, gone).1.sets, q, k, p, num);
  }

  lemma ChangeShows(w: World, q: string, k: nat, how: Change, ticket: nat, nr: int, e: Entry, news: seq<New>, err: bool,
                    p: string, num: nat, c: Count)
    requires Sized(w.sets) && Shows(w, p, num, c)
    requires var (reply, w1) := ChangeRule(w, q, k, how, ticket, nr, e, news, err); !reply.Lost? && p in w1.sets
    ensures Shows(ChangeRule(w, q, k, how, ticket, nr, e, news, err).1, p, num,
                  Counted(w, ChangeOp(q, k, how, ticket, nr, e, news, err), p, num, c))
  {
    hide Create, AddRefTo, DropAnchor, Install, Changed;
    AnchorShows(w, news, e.anchor, p, num);
    NextIsNext(c.active);
    if k < RULESET_MAX && Has(w.sets, q, k) && !how.GetTicket? && ticket == w.sets[q].lists[k].aticket {
      var w1 := if how.Remove? then w else w.(sets := AddRefTo(Create(w.sets, news), e.anchor));
      AnchorShows(w, news, e.anchor, q, k);
      var list := Changed(w.sets[q].lists[k].active, how, nr, e);
      if !(err && !how.Remove?) && list.Some? {
        var active := w.sets[q].lists[k].active;
        ChangedNames(active, how, nr, e);
        var gone := if how.Remove? then Some(active[PositionOf(active, nr)]) else None;
        InstallShows(w1, q, k, list.value, gone, p, num, c);
      }
    }
  }

  lemma ChangedNames(list: seq<Entry>, how: Change, nr: int, e: Entry)
    ensures how.Remove? && Changed(list, how, nr, e).Some? ==> PositionOf(list, nr) < |list|
  {
  }

  lemma StepShows(w: World, op: Op, p: string, num: nat, c: Count)
    requires Sized(w.sets) && Shows(w, p, num, c) && !Loses(w, op) && p in Step(w, op).sets
    ensures Shows(Step(w, op), p, num, Counted(w, op, p, num, c))
  {
    hide Begin, Add, Rollback, Commit, ChangeRule, Reap, Sized, Shrunk;
    match op
    case BeginOp(q, k, news) => BeginShows(w, q, k, news, p, num, c);
    case AddOp(q, k, ticket, e, news, err) => AddShows(w, q, k, ticket, e, news, err, p, num, c);
    case RollbackOp(q, k, ticket) => RollbackShows(w, q, k, ticket, p, num, c);
    case CommitOp(q, k, ticket) =>
      if Commit(w, q, k, ticket).Some? {
        CommitShows(w, q, k, ticket, p, num, c);
      }
    case ChangeOp(q, k, how, ticket, nr, e, news, err) =>
      ChangeShows(w, q, k, how, ticket, nr, e, news, err, p, num, c);
    case InUse(id) =>
    case NoLonger(id) =>
      ReapShrinks(w.(busy := w.busy - {id}, detached := []), w.detached, id);
      ShrunkKeeps(w.sets, Step(w, op).sets, p, num);
  }

  // ------------------------------------------------------------------------ runs

  ghost function After(w: World, ops: seq<Op>): World { Rulesets.Run(w, map[], ops).0 }

  lemma {:induction false} RunAfter(w: World, t: Loads, ops: seq<Op>)
    ensures Rulesets.Run(w, t, ops).0 == After(w, ops)
    decreases |ops|
  {
    hide Step, Believe;
    if ops != [] {
      RunAfter(Step(w, ops[0]), Believe(t, w, ops[0]), ops[1..]);
      RunAfter(Step(w, ops[0]), Believe(map[], w, ops[0]), ops[1..]);
    }
  }

  /** Over every run in which the ruleset is not removed, the tickets of a list are what
      the answers to its requests count, modulo 2^32. */
  lemma {:induction false} TicketsCount(w: World, t: Loads, ops: seq<Op>, p: string, num: nat, c: Count)
    requires Inv(w, t) && Shows(w, p, num, c) && Defined(w, ops) && Stays(w, ops, p)
    ensures Shows(After(w, ops), p, num, CountedAll(w, ops, p, num, c))
    decreases |ops|
  {
    hide Step, Believe, Loses, Inv, Shows, Counted;
    if ops != [] {
      var w1 := Step(w, ops[0]);
      assert Sized(w.sets) by { InvSized(w, t); }
      assert Stays(w1, ops[1..], p) && p in w1.sets;
      StepShows(w, ops[0], p, num, c);
      StepKeepsInv(w, t, ops[0]);
      RunAfter(w1, Believe(map[], w, ops[0]), ops[1..]);
      TicketsCount(w1, Believe(t, w, ops[0]), ops[1..], p, num, Counted(w, ops[0], p, num, c));
    }
  }

  lemma InvSized(w: World, t: Loads)
    requires Inv(w, t)
    ensures Sized(w.sets)
  {
  }

  // ------------------------------------------------------------- tickets of loads

  // How many loads of the list a run begins.
  function Begun(w: World, ops: seq<Op>, p: string, num: nat): nat
    decreases |ops|
  {
    if ops == [] then 0
    else (match ops[0]
          case BeginOp(q, k, news) => if (q, k) == (p, num) && Begin(w, q, k, news).0.Done? then 1 else 0
          case _ => 0) + Begun(Step(w, ops[0]), ops[1..], p, num)
  }

  lemma {:induction false} BegunCounted(w: World, ops: seq<Op>, p: string, num: nat, c: Count)
    ensures CountedAll(w, ops, p, num, c).inactive == c.inactive + Begun(w, ops, p, num)
    decreases |ops|
  {
    hide Step, Begin, Commit, ChangeRule;
    if ops != [] {
      BegunCounted(Step(w, ops[0]), ops[1..], p, num, Counted(w, ops[0], p, num, c));
    }
  }

  lemma SameTicket(a: nat, n: nat)
    ensures (a + n) % TICKETS == a % TICKETS <==> n % TICKETS == 0
  {
    var q, r := a / TICKETS, a % TICKETS;
    var k, m := n / TICKETS, n % TICKETS;
    assert a + n == (q + k) * TICKETS + r + m;
  }

  /** A load's ticket is out of date, in every run in which its ruleset is not removed, if
      and only if the list's load has been begun again since -- but 2^32 times. With a
      ticket out of date a rule is not added, a commit is refused, and a rollback does
      nothing. */
  lemma LoadOutdatedExactly(w: World, t: Loads, p: string, num: nat, news: seq<New>, ops: seq<Op>)
    requires Inv(w, t) && Begin(w, p, num, news).0.Done?
    requires var w1 := Begin(w, p, num, news).1; Defined(w1, ops) && Stays(w1, ops, p)
    ensures var (reply, w1) := Begin(w, p, num, news);
      var w2, n := After(w1, ops), Begun(w1, ops, p, num);
      && Has(w2.sets, p, num)
      && (w2.sets[p].lists[num].iticket == reply.ticket <==> n % 0x1_0000_0000 == 0)
      && (n % 0x1_0000_0000 != 0 ==>
            && (forall e, more, err :: Add(w2, p, num, reply.ticket, e, more, err) == (false, w2))
            && Commit(w2, p, num, reply.ticket) == None && Rollback(w2, p, num, reply.ticket) == w2)
  {
    hide Begin, Add, Commit, Rollback, Inv, Evolved, Grown;
    var (reply, w1) := Begin(w, p, num, news);
    BeginInv(w, t, p, num, news);
    var u := Believe(t, w, BeginOp(p, num, news));
    InvSized(w, t);
    BeginEffect(w, p, num, news);
    InvSized(w1, u);
    var l := w1.sets[p].lists[num];
    var c := Count(l.aticket, l.iticket);
    TicketsCount(w1, u, ops, p, num, c);
    BegunCounted(w1, ops, p, num, c);
    SameTicket(l.iticket, Begun(w1, ops, p, num));
    var w2 := After(w1, ops);
    if Begun(w1, ops, p, num) % TICKETS != 0 {
      StaleRefused(w2, p, num, reply.ticket);
    }
  }

  lemma StaleRefused(w: World, p: string, num: nat, ticket: nat)
    requires Has(w.sets, p, num) && w.sets[p].lists[num].iticket != ticket
    ensures forall e, more, err :: Add(w, p, num, ticket, e, more, err) == (false, w)
    ensures Commit(w, p, num, ticket) == None && Rollback(w, p, num, ticket) == w
  {
  }

  /** So two begins of one list are never answered with the same ticket while the
      ruleset is there -- but with 2^32 begins from one to the other. */
  lemma TwoLoadsTwoTickets(w: World, t: Loads, p: string, num: nat, news: seq<New>, ops: seq<Op>, more: seq<New>)
    requires Inv(w, t) && Begin(w, p, num, news).0.Done?
    requires var w1 := Begin(w, p, num, news).1;
      && Defined(w1, ops) && Stays(w1, ops, p) && Begin(After(w1, ops), p, num, more).0.Done?
      && (Begun(w1, ops, p, num) + 1) % 0x1_0000_0000 != 0
    ensures var w2 := After(Begin(w, p, num, news).1, ops);
      var first, w3 := Begin(w, p, num, news).0.ticket, Begin(w2, p, num, more).1;
      && Begin(w2, p, num, more).0.ticket != first
      && (forall e, others, err :: Add(w3, p, num, first, e, others, err) == (false, w3))
      && Commit(w3, p, num, first) == None && Rollback(w3, p, num, first) == w3
  {
    hide Begin, Add, Commit, Rollback, Inv, Evolved, Grown, After, Defined, Stays;
    var (reply, w1) := Begin(w, p, num, news);
    BeginInv(w, t, p, num, news);
    RunInv(w1, Believe(t, w, BeginOp(p, num, news)), ops);
    var w2 := After(w1, ops);
    AnyBegin(w, t, p, num, news, ops);
    var n := Begun(w1, ops, p, num);
    BeginEffect(w2, p, num, more);
    CreateKeeps(w2, more, p, num);
    NextIsNext(reply.ticket + n);
    SameTicket(reply.ticket, n + 1);
    var w3 := Begin(w2, p, num, more).1;
    EvolvedSized(Create(w2.sets, more), w3.sets, p, num);
    StaleRefused(w3, p, num, reply.ticket);
  }

  lemma RunInv(w: World, t: Loads, ops: seq<Op>)
    requires Inv(w, t) && Defined(w, ops)
    ensures Sized(After(w, ops).sets)
  {
    hide Inv;
    RunKeepsInv(w, t, ops);
    RunAfter(w, t, ops);
    InvSized(Rulesets.Run(w, t, ops).0, Rulesets.Run(w, t, ops).1);
  }

  lemma CreateKeeps(w: World, news: seq<New>, p: string, num: nat)
    requires Sized(w.sets) && Has(w.sets, p, num)
    ensures var m := Create(w.sets, news);
      Grown(w.sets, m) && Has(m, p, num) && m[p].lists == w.sets[p].lists
  {
    CreateGrows(w.sets, news);
    GrownKeeps(w.sets, Create(w.sets, news), p, num);
  }

  // The load's ticket after any number of begins.
  lemma AnyBegin(w: World, t: Loads, p: string, num: nat, news: seq<New>, ops: seq<Op>)
    requires Inv(w, t) && Begin(w, p, num, news).0.Done?
    requires var w1 := Begin(w, p, num, news).1; Defined(w1, ops) && Stays(w1, ops, p)
    ensures var (reply, w1) := Begin(w, p, num, news);
      var w2 := After(w1, ops);
      Has(w2.sets, p, num) && w2.sets[p].lists[num].iticket == (reply.ticket + Begun(w1, ops, p, num)) % TICKETS
  {
    hide Begin, Add, Commit, Rollback, Inv, Evolved, Grown;
    var (reply, w1) := Begin(w, p, num, news);
    BeginInv(w, t, p, num, news);
    var u := Believe(t, w, BeginOp(p, num, news));
    InvSized(w, t);
    BeginEffect(w, p, num, news);
    InvSized(w1, u);
    var l := w1.sets[p].lists[num];
    TicketsCount(w1, u, ops, p, num, Count(l.aticket, l.iticket));
    BegunCounted(w1, ops, p, num, Count(l.aticket, l.iticket));
  }

  // ------------------------------------------------------------ tickets of changes

  // How many changes of the active list, and requests for its ticket, are answered.
  function Taken(w: World, ops: seq<Op>, p: string, num: nat): nat
    decreases |ops|
  {
    if ops == [] then 0
    else (match ops[0]
          case ChangeOp(q, k, how, ticket, nr, e, news, err) =>
            if (q, k) == (p, num) && ChangeRule(w, q, k, how, ticket, nr, e, news, err).0.Done? then 1 else 0
          case _ => 0) + Taken(Step(w, ops[0]), ops[1..], p, num)
  }

  // The run has no commit of the list.
  predicate NoCommits(ops: seq<Op>, p: string, num: nat) {
    forall k :: 0 <= k < |ops| && ops[k].CommitOp? ==> (ops[k].p, ops[k].num) != (p, num)
  }

  lemma {:induction false} TakenCounted(w: World, ops: seq<Op>, p: string, num: nat, c: Count)
    requires NoCommits(ops, p, num)
    ensures CountedAll(w, ops, p, num, c).active == c.active + Taken(w, ops, p, num)
    decreases |ops|
  {
    hide Step, Begin, Commit, ChangeRule;
    if ops != [] {
      assert NoCommits(ops[1..], p, num);
      TakenCounted(Step(w, ops[0]), ops[1..], p, num, Counted(w, ops[0], p, num, c));
    }
  }

  /** Until the list is loaded anew, the ticket that was current at some time is current
      again later if and only if no change has been made, and no ticket fetched, since --
      or a multiple of 2^32 of them; out of date, a change is refused and does nothing. */
  lemma ChangeOutdatedExactly(w: World, t: Loads, p: string, num: nat, ops: seq<Op>)
    requires Inv(w, t) && Has(w.sets, p, num) && Defined(w, ops) && Stays(w, ops, p) && NoCommits(ops, p, num)
    ensures var w1, ticket, n := After(w, ops), w.sets[p].lists[num].aticket, Taken(w, ops, p, num);
      && Has(w1.sets, p, num)
      && (w1.sets[p].lists[num].aticket == ticket <==> n % 0x1_0000_0000 == 0)
      && (n % 0x1_0000_0000 != 0 ==> forall how, nr, e, news, err :: how != GetTicket ==>
            ChangeRule(w1, p, num, how, ticket, nr, e, news, err) == (Refused, w1))
  {
    hide Inv, ChangeRule;
    var l := w.sets[p].lists[num];
    var c := Count(l.aticket, l.iticket);
    TicketsCount(w, t, ops, p, num, c);
    TakenCounted(w, ops, p, num, c);
    SameTicket(l.aticket, Taken(w, ops, p, num));
    var w1 := After(w, ops);
    if w1.sets[p].lists[num].aticket != l.aticket {
      StaleChange(w1, p, num, l.aticket);
    }
  }

  lemma StaleChange(w: World, p: string, num: nat, ticket: nat)
    requires Has(w.sets, p, num) && w.sets[p].lists[num].aticket != ticket
    ensures forall how, nr, e, news, err :: how != GetTicket ==>
      ChangeRule(w, p, num, how, ticket, nr, e, news, err) == (Refused, w)
  {
  }

  /** The answer to a request for the ticket is the current one from then on. */
  lemma TicketFetched(w: World, p: string, num: nat, ticket: nat, nr: int, e: Entry, news: seq<New>, err: bool)
    requires num < RULESET_MAX && Has(w.sets, p, num)
    ensures var (reply, w1) := ChangeRule(w, p, num, GetTicket, ticket, nr, e, news, err);
      && Has(w1.sets, p, num) && reply == Done(w1.sets[p].lists[num].aticket)
      && w1.sets[p].lists[num].aticket == (w.sets[p].lists[num].aticket + 1) % 0x1_0000_0000
      && w1.sets[p].lists[num].active == w.sets[p].lists[num].active
  {
  }

  /** A load does not put it out of date for good: the commit makes the load's own ticket
      current, and a ticket fetched for the list before works on the new list if and
      only if it is the same number. */
  lemma CommitResetsTicket(w: World, p: string, num: nat, load: nat, ticket: nat)
    requires Sized(w.sets) && Commit(w, p, num, load).Some? && Has(Commit(w, p, num, load).value.sets, p, num)
    ensures var w1 := Commit(w, p, num, load).value;
      && w1.sets[p].lists[num].aticket == load
      && (ticket != load ==> forall how, nr, e, news, err :: how != GetTicket ==>
            ChangeRule(w1, p, num, how, ticket, nr, e, news, err) == (Refused, w1))
      && (ticket == load ==> forall how, nr, e, news ::
            Changed(w1.sets[p].lists[num].active, how, nr, e).Some? && num < RULESET_MAX ==>
            !ChangeRule(w1, p, num, how, ticket, nr, e, news, false).0.Refused?)
  {
    hide Evolved, ChangeRule;
    assert IsOpen(w.sets, p, num, load);
    hide Commit;
    CommitEffect(w, p, num, load);
    var w1 := Commit(w, p, num, load).value;
    EvolvedSized(w.sets, w1.sets, p, num);
    if ticket != load {
      StaleChange(w1, p, num, ticket);
    } else {
      forall how, nr, e, news | Changed(w1.sets[p].lists[num].active, how, nr, e).Some? && num < RULESET_MAX
        ensures !ChangeRule(w1, p, num, how, ticket, nr, e, news, false).0.Refused?
      {
        CurrentChange(w1, p, num, how, ticket, nr, e, news);
      }
    }
  }

  lemma CurrentChange(w: World, p: string, num: nat, how: Change, ticket: nat, nr: int, e: Entry, news: seq<New>)
    requires Sized(w.sets) && Has(w.sets, p, num) && num < RULESET_MAX && w.sets[p].lists[num].aticket == ticket
    requires Changed(w.sets[p].lists[num].active, how, nr, e).Some?
    ensures !ChangeRule(w, p, num, how, ticket, nr, e, news, false).0.Refused?
  {
    hide Create, AddRefTo, DropAnchor, Install, Changed;
    AnchorShows(w, news, e.anchor, p, num);
    var list := Changed(w.sets[p].lists[num].active, how, nr, e).value;
    var active := w.sets[p].lists[num].active;
    ChangedNames(active, how, nr, e);
    var w1 := if how.Remove? then w else w.(sets := AddRefTo(Create(w.sets, news), e.anchor));
    InstallEffect(w1, p, num, list, if how.Remove? then Some(active[PositionOf(active, nr)]) else None);
  }

  // ------------------------------------------------------- what is not out of date

  /** A rule is taken if and only if its list exists, the ticket is that of the list's
      load, and nothing is wrong with the rule. It comes last in the inactive list; no
      other list changes, and none at all when it is refused. */
  lemma AddedExactly(w: World, p: string, num: nat, ticket: nat, e: Entry, news: seq<New>, err: bool, q: string, k: nat)
    requires Sized(w.sets) && k < RULESET_MAX
    ensures var (ok, w1) := Add(w, p, num, ticket, e, news, err);
      && (ok <==> num < RULESET_MAX && p in w.sets && w.sets[p].lists[num].iticket == ticket && !err)
      && (Has(w.sets, q, k) && Has(w1.sets, q, k) && !(ok && (q, k) == (p, num)) ==>
            w1.sets[q].lists[k] == w.sets[q].lists[k])
      && (ok ==> Has(w1.sets, p, num))
      && (ok ==>
            var l, l1 := w.sets[p].lists[num], w1.sets[p].lists[num];
            && l1 == l.(inactive := l1.inactive) && |l1.inactive| == |l.inactive| + 1
            && l1.inactive[..|l.inactive|] == l.inactive && Given(l1.inactive[|l.inactive|]) == Given(e))
  {
    hide Create, AddRefTo, DropAnchor;
    if num < RULESET_MAX && Has(w.sets, p, num) && w.sets[p].lists[num].iticket == ticket {
      AnchorShows(w, news, e.anchor, p, num);
      if q in w.sets {
        AnchorShows(w, news, e.anchor, q, k);
      }
    }
  }

  /** A change is refused if and only if there is no such list, or -- but for a request
      for the ticket -- the ticket is out of date, something is wrong with the rule it
      brings, or the rule it names by number is not in the list. */
  lemma ChangeRefusedExactly(w: World, p: string, num: nat, how: Change, ticket: nat, nr: int, e: Entry,
                             news: seq<New>, err: bool)
    requires Sized(w.sets)
    requires num < RULESET_MAX && p in w.sets ==> NumberedFromZero(w.sets[p].lists[num].active)
    ensures ChangeRule(w, p, num, how, ticket, nr, e, news, err).0.Refused? <==>
      num >= RULESET_MAX || p !in w.sets ||
      (how != GetTicket &&
        (ticket != w.sets[p].lists[num].aticket || (err && how != Remove) ||
          (how in {AddBefore, AddAfter, Remove} && !(0 <= nr < |w.sets[p].lists[num].active|))))
  {
    hide Create, AddRefTo, DropAnchor, Install, Changed, ChangeRule;
    if num < RULESET_MAX && p in w.sets {
      var l := w.sets[p].lists[num];
      ChangedAtNumber(l.active, how, nr, e);
      if how == GetTicket {
        TicketFetched(w, p, num, ticket, nr, e, news, err);
      } else if ticket != l.aticket {
        StaleChange(w, p, num, ticket);
      } else if err && how != Remove {
        BadChange(w, p, num, how, ticket, nr, e, news);
      } else if Changed(l.active, how, nr, e).Some? {
        CurrentChange(w, p, num, how, ticket, nr, e, news);
        SameWithoutError(w, p, num, how, ticket, nr, e, news, err);
      } else {
        NoSuchRule(w, p, num, how, ticket, nr, e, news, err);
      }
    } else {
      NoSuchList(w, p, num, how, ticket, nr, e, news, err);
    }
  }

  lemma BadChange(w: World, p: string, num: nat, how: Change, ticket: nat, nr: int, e: Entry, news: seq<New>)
    requires num < RULESET_MAX && Has(w.sets, p, num) && how != GetTicket && how != Remove
    ensures ChangeRule(w, p, num, how, ticket, nr, e, news, true).0.Refused?
  {
    hide Create, AddRefTo, DropAnchor, Install, Changed;
  }

  lemma SameWithoutError(w: World, p: string, num: nat, how: Change, ticket: nat, nr: int, e: Entry,
                         news: seq<New>, err: bool)
    requires err ==> how == Remove
    ensures ChangeRule(w, p, num, how, ticket, nr, e, news, err)
         == ChangeRule(w, p, num, how, ticket, nr, e, news, false)
  {
    hide Create, AddRefTo, DropAnchor, Install, Changed;
  }

  lemma NoSuchRule(w: World, p: string, num: nat, how: Change, ticket: nat, nr: int, e: Entry,
                   news: seq<New>, err: bool)
    requires num < RULESET_MAX && Has(w.sets, p, num) && how != GetTicket
    requires Changed(w.sets[p].lists[num].active, how, nr, e).None?
    ensures ChangeRule(w, p, num, how, ticket, nr, e, news, err).0.Refused?
  {
    hide Create, AddRefTo, DropAnchor, Install, Changed;
  }

  lemma NoSuchList(w: World, p: string, num: nat, how: Change, ticket: nat, nr: int, e: Entry,
                   news: seq<New>, err: bool)
    requires num >= RULESET_MAX || !Has(w.sets, p, num)
    ensures ChangeRule(w, p, num, how, ticket, nr, e, news, err) == (Refused, w)
  {
  }

  // --------------------------------------------------------- the exceptions happen

  const KEY := "a"
  const NEW := [New(KEY, None)]

  // A ruleset whose filter list only is in use.
  function One(l: Lists): Ruleset { Ruleset([NO_LISTS, l, NO_LISTS, NO_LISTS, NO_LISTS], None, 0, 0, false) }

  // The filter list of ruleset p is `l`, and all others are as at the start.
  function With(p: string, l: Lists): World { INITIAL.(sets := INITIAL.sets[p := One(l)]) }

  lemma EmptyIsOne()
    ensures EmptyRuleset(None) == One(NO_LISTS) && INITIAL == With("", NO_LISTS)
  {
    assert EmptyRuleset(None).lists == One(NO_LISTS).lists;
  }

  lemma SetOne(p: string, l: Lists, l1: Lists)
    ensures SetLists(With(p, l), p, 1, l1) == With(p, l1)
  {
    assert One(l).lists[1 := l1] == One(l1).lists;
    assert SetLists(With(p, l), p, 1, l1).sets == With(p, l1).sets;
  }

  lemma BeginOne(p: string, l: Lists, news: seq<New>)
    requires l.inactive == [] && Create(With(p, l).sets, news) == With(p, l).sets
    ensures Begin(With(p, l), p, 1, news)
         == (Done(NextTicket(l.iticket)), With(p, l.(iticket := NextTicket(l.iticket), open := true)))
  {
    var w := With(p, l);
    SetOne(p, l, l.(iticket := NextTicket(l.iticket), open := true));
    assert Purge(w, p, 1) == w;
  }

  // The ruleset "a" with nothing but its open load under a ticket.
  function Opened(ticket: Ticket): World { With(KEY, NO_LISTS.(iticket := ticket, open := true)) }

  lemma FirstBegin()
    ensures Begin(INITIAL, KEY, 1, NEW) == (Done(1), Opened(1))
  {
    EmptyIsOne();
    var w := With(KEY, NO_LISTS);
    assert Create(INITIAL.sets, NEW) == w.sets && Create(w.sets, NEW) == w.sets by { assert NEW[1..] == []; }
    BeginOne(KEY, NO_LISTS, NEW);
    assert INITIAL.(sets := Create(INITIAL.sets, NEW)) == w == w.(sets := Create(w.sets, NEW));
  }

  lemma SecondBegin()
    ensures Begin(Opened(1), KEY, 1, NEW) == (Done(2), Opened(2))
  {
    assert Create(Opened(1).sets, NEW) == Opened(1).sets by { assert NEW[1..] == []; }
    BeginOne(KEY, NO_LISTS.(iticket := 1, open := true), NEW);
  }

  // A commit of an empty load over an empty list, before the ruleset may go.
  lemma CommitOne(p: string, l: Lists)
    requires l.active == [] && l.inactive == [] && l.open
    ensures var w2 := With(p, Lists([], [], l.iticket, l.iticket, false));
      Commit(With(p, l), p, 1, l.iticket) == Some(w2.(sets := RemoveIfEmpty(w2.sets, p)))
  {
    hide RemoveIfEmpty;
    assert WithSkips([]) == [];
    var l1 := Lists([], [], l.iticket, l.iticket, true);
    SetOne(p, l, l1);
    SetOne(p, l1, l1.(open := false));
    assert Purge(With(p, l1), p, 1) == With(p, l1);
  }

  lemma EmptyCommit()
    ensures Commit(Opened(2), KEY, 1, 2) == Some(INITIAL)
  {
    hide Commit;
    CommitOne(KEY, NO_LISTS.(iticket := 2, open := true));
    var m := With(KEY, Lists([], [], 2, 2, false)).sets;
    assert IsEmpty(m, KEY);
    assert m - {KEY} == INITIAL.sets;
    assert RemoveIfEmpty(m, KEY) == INITIAL.sets;
  }

  /** A ruleset created anew starts its tickets anew: one loader begins, a second begins
      and commits nothing, by which the ruleset goes; a third begins and is given the
      first one's ticket, so that the first one's rules are taken into its load. */
  lemma RemovalReusesTickets(e: Entry)
    requires e.anchor == None
    ensures Begin(INITIAL, KEY, 1, NEW) == (Done(1), Opened(1)) && Begin(Opened(1), KEY, 1, NEW) == (Done(2), Opened(2))
    ensures Commit(Opened(2), KEY, 1, 2) == Some(INITIAL)
    ensures Add(Opened(1), KEY, 1, 1, e, [], false).0
  {
    hide Begin, Commit;
    FirstBegin();
    SecondBegin();
    EmptyCommit();
  }

  // The main ruleset with the tickets of its empty list.
  function Main(aticket: Ticket, iticket: Ticket, open: bool): World {
    With("", Lists([], [], aticket, iticket, open))
  }

  lemma FetchFirst(e: Entry)
    ensures ChangeRule(INITIAL, "", 1, GetTicket, 0, 0, e, [], false) == (Done(1), Main(1, 0, false))
  {
    EmptyIsOne();
    SetOne("", NO_LISTS, NO_LISTS.(aticket := 1));
  }

  lemma CommitMain()
    ensures Commit(Main(1, 1, true), "", 1, 1) == Some(Main(1, 1, false))
  {
    hide Commit;
    CommitOne("", Lists([], [], 1, 1, true));
  }

  /** The same for changes: the ticket of the main list is fetched, then a load is begun
      and committed, and the ticket fetched before works on the list loaded. */
  lemma LoadReusesChangeTicket(e: Entry)
    ensures ChangeRule(INITIAL, "", 1, GetTicket, 0, 0, e, [], false) == (Done(1), Main(1, 0, false))
    ensures Begin(Main(1, 0, false), "", 1, []) == (Done(1), Main(1, 1, true))
    ensures Commit(Main(1, 1, true), "", 1, 1) == Some(Main(1, 1, false))
    ensures !ChangeRule(Main(1, 1, false), "", 1, AddTail, 1, 0, e, [], false).0.Refused?
  {
    hide Begin, Commit, ChangeRule;
    FetchFirst(e);
    BeginOne("", Lists([], [], 1, 0, false), []);
    CommitMain();
    CurrentChange(Main(1, 1, false), "", 1, AddTail, 1, 0, e, []);
  }
}
