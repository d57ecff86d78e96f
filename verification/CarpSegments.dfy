/** Three segments of two hosts: one elects its leader for good, and on two a callout
    that the leader does not keep from firing makes a second master. */
module CarpSegments {
  import opened Options
  import opened Carp
  import opened CarpElection

  // Whole seconds, as ticks.
  function Seconds(t: Timeval): int { if t.sec < 1 then 1 else t.sec }

  function Running(state: State, cfg: Config, timers: Callouts): Node {
    Node(Softc(state, true, true, cfg, timers, Tally(0, 0), false, false), false, 0)
  }

  // A master with an IPv4 address, and a slower backup with one of each family.
  const FIRST := Running(Master, Config(1, 1, 0, 1, 0, true, false), Callouts(Some(0), None, None))
  const SECOND := Running(Backup, Config(1, 1, 100, 1, 1, true, true), Callouts(None, Some(2), Some(1)))

  const SEGMENT := World(0, [FIRST, SECOND], [])
  const SENT := World(0, [FIRST.(sc := FIRST.sc.(timers := Callouts(Some(1), None, None))), SECOND],
                      [Packet(0, Ad(Inet, 1, 0))])
  const HEARD := World(0, [SENT.nodes[0], SECOND.(sc := SECOND.sc.(timers := Callouts(None, Some(3), Some(1))))], [])

  lemma SegmentHears()
    ensures IsDue(SEGMENT, 0, AdTmo) && Fire(SEGMENT, Seconds, 0, AdTmo) == SENT && Deliver(SENT, Seconds) == HEARD
  {
    assert Packets(0, LeaderAds(FIRST.sc)) == SENT.wire;
    NoAnswers(SENT, Seconds, SENT.wire[0], 0);
    assert Deliver(SENT, Seconds).nodes == HEARD.nodes;
  }

  lemma SegmentIsLoose()
    ensures Advertised(SEGMENT, Seconds, 0) && LooseAt(SEGMENT, 0, 1, Inet6)
  {
    assert Follows(FIRST.sc, SECOND);
  }

  lemma SegmentRuns()
    ensures var run := [Timeout(0, AdTmo), Arrive, Tick, Timeout(1, Md6Tmo)];
      IsRun(SEGMENT, Seconds, run) && BothMaster(RunAll(SEGMENT, Seconds, run), 1, 0)
  {
    SegmentHears();
    hide Deliver;
    var run := [Timeout(0, AdTmo), Arrive, Tick, Timeout(1, Md6Tmo)];
    var w3 := Next(HEARD, Seconds, run[2]);
    assert IsRun(w3, Seconds, run[3..]);
    assert IsRun(HEARD, Seconds, run[2..]);
  }

  /** A family the leader is silent in: it advertises, the backup hears it, a second
      goes by, and the backup's IPv6 callout makes it master as well. */
  lemma SilenceSplits()
    ensures Ticking(Seconds) && Advertised(SEGMENT, Seconds, 0) && LooseAt(SEGMENT, 0, 1, Inet6)
    ensures var run := [Timeout(0, AdTmo), Arrive, Tick, Timeout(1, Md6Tmo)];
      IsRun(SEGMENT, Seconds, run) && BothMaster(RunAll(SEGMENT, Seconds, run), 1, 0)
  {
    hide Advertised, LooseAt, IsRun, RunAll;
    SegmentIsLoose();
    SegmentRuns();
  }

  // The same without IPv6.
  const THIRD := Running(Backup, Config(1, 1, 100, 1, 0, true, false), Callouts(None, Some(2), None))

  /** A segment on which the leader is elected for good. */
  lemma ElectionHappens()
    ensures Ticking(Seconds) && StaysSole(World(0, [FIRST, THIRD], []), Seconds, 0)
  {
    var w := World(0, [FIRST, THIRD], []);
    assert Follows(FIRST.sc, THIRD) && w.nodes[1] == THIRD;
    assert Advertised(w, Seconds, 0) && AllPatient(w, Seconds, 0) && NoneLoose(w, 0);
    SoleMasterExactly(w, Seconds, 0);
  }

  // A master with an address of each family, and one with an IPv6 address only whose
  // IPv4 callout is left from an advertisement it has heard.
  const LEAD := Running(Master, Config(1, 2, 0, 1, 1, true, true), Callouts(Some(0), None, None))
  const STALE := Running(Master, Config(1, 2, 100, 0, 1, false, true), Callouts(Some(2), Some(1), None))

  const TWO := World(0, [LEAD, STALE], [])
  const TWO_SENT := World(0, [LEAD.(sc := LEAD.sc.(timers := Callouts(Some(2), None, None))), STALE],
                          [Packet(0, Ad(Inet, 2, 0)), Packet(0, Ad(Inet6, 2, 0))])
  const YIELDED := STALE.(sc := STALE.sc.(state := Backup, timers := Callouts(None, Some(1), Some(6))))
  const TWO_HALF := World(0, [TWO_SENT.nodes[0], YIELDED], [Packet(0, Ad(Inet6, 2, 0))])
  const TWO_HEARD := World(0, [TWO_SENT.nodes[0], YIELDED], [])

  lemma StaleHears()
    ensures IsDue(TWO, 0, AdTmo) && Fire(TWO, Seconds, 0, AdTmo) == TWO_SENT && Deliver(TWO_SENT, Seconds) == TWO_HALF
  {
    assert Packets(0, LeaderAds(LEAD.sc)) == TWO_SENT.wire;
    NoAnswers(TWO_SENT, Seconds, TWO_SENT.wire[0], 0);
    assert Deliver(TWO_SENT, Seconds).nodes == TWO_HALF.nodes;
  }

  lemma StaleHearsAgain()
    ensures Deliver(TWO_HALF, Seconds) == TWO_HEARD
  {
    NoAnswers(TWO_HALF, Seconds, TWO_HALF.wire[0], 0);
    assert Deliver(TWO_HALF, Seconds).nodes == TWO_HEARD.nodes;
  }

  lemma StaleIsLoose()
    ensures Leads(TWO.nodes, 0) && Advertised(TWO_SENT, Seconds, 0) && LooseAt(TWO_SENT, 0, 1, Inet)
  {
    assert Follows(LEAD.sc, STALE) && Follows(TWO_SENT.nodes[0].sc, STALE);
    assert Packets(0, LeaderAds(TWO_SENT.nodes[0].sc)) == TWO_SENT.wire;
  }

  lemma StaleRuns()
    ensures var run := [Timeout(0, AdTmo), Arrive, Arrive, Tick, Timeout(1, MdTmo)];
      IsRun(TWO, Seconds, run) && BothMaster(RunAll(TWO, Seconds, run), 1, 0) && RunAll(TWO, Seconds, run).now == 1
  {
    StaleHears();
    StaleHearsAgain();
    hide Deliver;
    var run := [Timeout(0, AdTmo), Arrive, Arrive, Tick, Timeout(1, MdTmo)];
    var w4 := Next(TWO_HEARD, Seconds, run[3]);
    assert IsRun(w4, Seconds, run[4..]);
    assert IsRun(TWO_HEARD, Seconds, run[3..]);
    assert IsRun(TWO_HALF, Seconds, run[2..]);
  }

  /** A leader that sends in every family does not help against a callout left over:
      hearing it the other master steps down, and a second later, a second before the
      leader's next advertisement, its IPv4 callout makes it master again. */
  lemma LeftoverSplits()
    ensures Leads(TWO.nodes, 0) && SendsIn(LEAD.sc, Inet) && SendsIn(LEAD.sc, Inet6)
    ensures Fire(TWO, Seconds, 0, AdTmo) == TWO_SENT && Advertised(TWO_SENT, Seconds, 0)
    ensures LooseAt(TWO_SENT, 0, 1, Inet)
    ensures var run := [Timeout(0, AdTmo), Arrive, Arrive, Tick, Timeout(1, MdTmo)];
      IsRun(TWO, Seconds, run) && BothMaster(RunAll(TWO, Seconds, run), 1, 0) && RunAll(TWO, Seconds, run).now == 1
  {
    hide Leads, Advertised, LooseAt, IsRun, RunAll, Fire;
    StaleHears();
    StaleIsLoose();
    StaleRuns();
  }

  function At(now: int, e: Event): Moment { Moment(Clock(now, Seconds, false), 0, e, ALL_WELL) }

  // Configured, and with an IPv6 address.
  const NAMED := FRESH.(cfg := FRESH.cfg.(vhid := 1, advbase := 2, advskew := 100))
  const WAITING := STALE.sc.(state := Backup, timers := Callouts(None, None, Some(-4)))

  lemma WaitingIsReached()
    ensures Carp.Handle(Clock(-20, Seconds, false), FRESH, 0, Vh(Request(Init, 1, 2, 100), false), ALL_WELL).sc == NAMED
    ensures Carp.Handle(Clock(-10, Seconds, false), NAMED, 0, NewAddr(true, false, false, false, true), ALL_WELL).sc
         == WAITING
  {
  }

  // It hears one IPv4 advertisement, and becomes master when it hears no more.
  const HEARING := WAITING.(timers := Callouts(None, Some(1), Some(-4)))
  const RISEN := STALE.sc.(timers := Callouts(Some(-2), Some(1), None))
  const LAST := STALE.sc.(timers := Callouts(Some(0), Some(1), None))

  lemma RisenIsReached()
    ensures Carp.Handle(Clock(-5, Seconds, false), WAITING, 0, Heard(Ad(Inet, 2, 0)), ALL_WELL).sc == HEARING
    ensures Carp.Handle(Clock(-4, Seconds, false), HEARING, 0, MasterDownDue(true), ALL_WELL).sc == RISEN
    ensures AdTimeout(Clock(-2, Seconds, false), RISEN, 0, ALL_WELL).sc == LAST
    ensures AdTimeout(Clock(0, Seconds, false), LAST, 0, ALL_WELL).sc == STALE.sc
  {
  }

  /** How an interface gets there: it is configured, given an IPv6 address, hears one
      IPv4 advertisement, and then hears no more for as long as it waits for a master. */
  lemma StaleIsReached()
    ensures var run := [At(-20, Vh(Request(Init, 1, 2, 100), false)), At(-10, NewAddr(true, false, false, false, true)),
                        At(-5, Heard(Ad(Inet, 2, 0))), At(-4, MasterDownDue(true)), At(-2, AdDue), At(0, AdDue)];
      Carp.LegalRun(FRESH, run) && AfterRun(FRESH, run) == STALE.sc
  {
    WaitingIsReached();
    RisenIsReached();
    hide AdTimeout, NewVh, AddAddr, Input, MasterDown;
    var run := [At(-20, Vh(Request(Init, 1, 2, 100), false)), At(-10, NewAddr(true, false, false, false, true)),
                At(-5, Heard(Ad(Inet, 2, 0))), At(-4, MasterDownDue(true)), At(-2, AdDue), At(0, AdDue)];
    assert Carp.LegalRun(LAST, run[5..]) && AfterRun(LAST, run[5..]) == STALE.sc;
    assert Carp.LegalRun(RISEN, run[4..]) && AfterRun(RISEN, run[4..]) == STALE.sc;
    assert Carp.LegalRun(HEARING, run[3..]) && AfterRun(HEARING, run[3..]) == STALE.sc;
    assert Carp.LegalRun(WAITING, run[2..]) && AfterRun(WAITING, run[2..]) == STALE.sc;
    assert Carp.LegalRun(NAMED, run[1..]) && AfterRun(NAMED, run[1..]) == STALE.sc;
  }
}
