/** A segment whose fastest node preempts: it becomes master within the time it waits
    for one, whatever the others do, and then stays master. */
module CarpPreempt {
  import opened Options
  import opened Carp
  import opened CarpElection

  predicate Faster(a: Softc, b: Softc) { Below(a.cfg.advbase, a.cfg.advskew, b.cfg.advbase, b.cfg.advskew) }

  // What is on the wire shows the intervals of the nodes it came from.
  ghost predicate Honest(nodes: seq<Node>, wire: seq<Packet>) {
    forall k :: 0 <= k < |wire| ==>
      && wire[k].from < |nodes|
      && wire[k].ad.advbase == nodes[wire[k].from].sc.cfg.advbase
      && wire[k].ad.advskew == nodes[wire[k].from].sc.cfg.advskew
  }

  /** All nodes run as they should; of who is master nothing is said. */
  ghost predicate Segment(w: World) {
    (forall i :: 0 <= i < |w.nodes| ==> Proper(w.nodes[i])) && Honest(w.nodes, w.wire)
  }

  ghost predicate Fastest(w: World, i: nat) {
    i < |w.nodes| && w.nodes[i].preempt &&
    forall j :: 0 <= j < |w.nodes| && j != i ==> Faster(w.nodes[i].sc, w.nodes[j].sc)
  }

  // ------------------------------------------------------------ what a step keeps

  ghost predicate OwnAds(sc: Softc, ads: seq<Ad>) {
    forall k :: 0 <= k < |ads| ==> ads[k].advbase == sc.cfg.advbase && ads[k].advskew == sc.cfg.advskew
  }

  // A handler has left a node as it should be, with advertisements of its own.
  ghost predicate Fine(n: Node, o: Out) {
    Proper(After(n, o)) && o.sc.cfg == n.sc.cfg && OwnAds(n.sc, o.ads)
  }

  lemma SendFine(c: Clock, n: Node, sc: Softc)
    requires Proper(n) && sc.cfg == n.sc.cfg && sc.running && sc.up && sc.tally == n.sc.tally
    ensures var o := SendAd(c, sc, n.sup, ALL_WELL);
      && o.sup == 0 && o.sc.tally.errors < CARP_SENDAD_MAX_ERRORS && OwnAds(n.sc, o.ads)
      && o.sc.cfg == sc.cfg && o.sc.state == sc.state && o.sc.running && o.sc.up
      && o.sc.timers == sc.timers.(ad := Due(c, OwnTv(sc)))
  {
    SentExactly(c, sc, n.sup, ALL_WELL);
    SendAdEffect(c, sc, n.sup, ALL_WELL);
  }

  lemma MasterDownFine(c: Clock, n: Node, sc: Softc)
    requires Proper(n) && (sc.state.Backup? || Alive(sc)) && sc.running && sc.cfg == n.sc.cfg && sc.tally == n.sc.tally
    requires sc.up && CanRun(sc)
    ensures var o := MasterDown(c, sc, n.sup, ALL_WELL);
      Fine(n, o) && (sc.state.Backup? ==> o.sc.state.Master?) && (!sc.state.Backup? ==> o == Out(sc, n.sup, []))
  {
    hide SendAd;
    MasterDownAlive(c, sc, n.sup, ALL_WELL);
    SendFine(c, n, sc.(state := Master));
  }

  lemma InputFine(c: Clock, n: Node, ad: Ad)
    requires Proper(n)
    ensures Fine(n, Input(c, n.sc, n.sup, ad, ALL_WELL))
  {
    hide MasterDown, SendAd, Interval, Less;
    InputAlive(c, n.sc, n.sup, ad, ALL_WELL);
    assert CanRun(n.sc);
    if n.sc.state.Backup? {
      MasterDownFine(c, n, n.sc);
    }
  }

  lemma AdTimeoutFine(c: Clock, n: Node)
    requires Proper(n) && n.sc.timers.ad.Some?
    ensures Fine(n, AdTimeout(c, n.sc, n.sup, ALL_WELL))
    ensures AdTimeout(c, n.sc, n.sup, ALL_WELL).sc.state == n.sc.state
  {
    hide SendAd;
    AdTimeoutAliveExactly(c, n.sc, n.sup, ALL_WELL);
    SendFine(c, n, n.sc.(timers := n.sc.timers.(ad := None)));
  }

  lemma HandleFine(c: Clock, n: Node, which: Callout)
    requires Proper(n) && DueAt(n.sc, which).Some?
    ensures var o := CarpElection.Handle(c, n, which);
      && Fine(n, o) && (n.sc.state.Master? ==> o.sc.state.Master?)
      && (n.sc.state.Backup? ==> o.sc.state.Master?)
  {
    hide SendAd, AdTimeout, MasterDown;
    match which
    case AdTmo => AdTimeoutFine(c, n);
    case MdTmo => MasterDownFine(c, n, n.sc.(timers := n.sc.timers.(md := None)));
    case Md6Tmo => MasterDownFine(c, n, n.sc.(timers := n.sc.timers.(md6 := None)));
  }

  // Who is set up how does not change.
  ghost predicate SameHosts(w: World, w1: World) {
    |w1.nodes| == |w.nodes| &&
    forall i :: 0 <= i < |w.nodes| ==>
      w1.nodes[i].sc.cfg == w.nodes[i].sc.cfg && w1.nodes[i].preempt == w.nodes[i].preempt
  }

  lemma {:induction false} AnswersHonest(w: World, f: Timeval -> int, p: Packet, k: nat)
    requires forall i :: 0 <= i < |w.nodes| ==> Proper(w.nodes[i])
    ensures Honest(w.nodes, Answers(w, f, p, k))
    decreases |w.nodes| - k
  {
    hide Proper, Hear;
    if k < |w.nodes| {
      AnswersHonest(w, f, p, k + 1);
      if k != p.from {
        HearFine(w, f, w.nodes[k], p.ad);
      }
    }
  }

  lemma HearFine(w: World, f: Timeval -> int, n: Node, ad: Ad)
    requires Proper(n)
    ensures Fine(n, Hear(w, f, n, ad))
  {
    InputFine(ClockOf(w, f, n), n, ad);
  }

  lemma StepSegment(w: World, f: Timeval -> int, s: CarpElection.Step)
    requires Segment(w) && Enabled(w, s)
    ensures Segment(Next(w, f, s)) && SameHosts(w, Next(w, f, s))
  {
    hide Proper, Input, CarpElection.Handle, Answers;
    var w1 := Next(w, f, s);
    match s
    case Arrive =>
      var p := w.wire[0];
      forall i | 0 <= i < |w.nodes|
        ensures Proper(w1.nodes[i])
        ensures w1.nodes[i].sc.cfg == w.nodes[i].sc.cfg && w1.nodes[i].preempt == w.nodes[i].preempt
      {
        InputFine(ClockOf(w, f, w.nodes[i]), w.nodes[i], p.ad);
      }
      AnswersHonest(w, f, p, 0);
      HonestSame(w, w1, w.wire[1..]);
      HonestSame(w, w1, Answers(w, f, p, 0));
    case Timeout(i, which) =>
      HandleFine(ClockOf(w, f, w.nodes[i]), w.nodes[i], which);
      HonestSame(w, w1, []);
    case Tick =>
  }

  lemma HonestSame(w: World, w1: World, wire: seq<Packet>)
    requires Honest(w.nodes, wire) && SameHosts(w, w1)
    ensures Honest(w1.nodes, wire)
  {
  }

  lemma SameFastest(w: World, w1: World, i: nat)
    requires Fastest(w, i) && SameHosts(w, w1)
    ensures Fastest(w1, i)
  {
  }

  // --------------------------------------------------------------- the fastest node

  /** The fastest node, hearing anyone: as a backup it becomes master, as a master it
      takes no notice. */
  lemma FastestHears(w: World, f: Timeval -> int, i: nat)
    requires Segment(w) && Fastest(w, i) && w.wire != [] && w.wire[0].from != i
    ensures Deliver(w, f).nodes[i].sc.state.Master?
    ensures w.nodes[i].sc.state.Master? ==> Deliver(w, f).nodes[i] == w.nodes[i]
  {
    hide Input;
    var n, p := w.nodes[i], w.wire[0];
    assert Faster(n.sc, w.nodes[p.from].sc);
    if n.sc.state.Backup? {
      BackupTakesOverExactly(ClockOf(w, f, n), n.sc, n.sup, p.ad, ALL_WELL);
    } else {
      MasterStepsDownExactly(ClockOf(w, f, n), n.sc, n.sup, p.ad, ALL_WELL);
    }
  }

  // When a backup gives up waiting: in a family that it has an address in.
  function Deadline(sc: Softc): int
    requires Alive(sc) && sc.running && sc.state.Backup?
  {
    if sc.cfg.naddrs > 0 then sc.timers.md.value else sc.timers.md6.value
  }

  /** A step leaves the fastest node master if it is, makes it master, or leaves it
      waiting as before, with its time not yet past. */
  lemma FastestStep(w: World, f: Timeval -> int, i: nat, s: CarpElection.Step)
    requires Segment(w) && Fastest(w, i) && Enabled(w, s)
    ensures i < |Next(w, f, s).nodes|
    ensures var n, n1 := w.nodes[i].sc, Next(w, f, s).nodes[i].sc;
      && (n1.state.Master? ||
          (n.state.Backup? && n1.state.Backup? && Alive(n1) && n1.running && Deadline(n1) == Deadline(n)))
      && (Next(w, f, s).now != w.now ==>
            s.Tick? && Next(w, f, s).now == w.now + 1 && (n1.state.Backup? ==> w.now < Deadline(n)))
  {
    hide CarpElection.Handle;
    assert Proper(w.nodes[i]);
    match s
    case Arrive =>
      if w.wire[0].from != i {
        FastestHears(w, f, i);
      }
    case Timeout(j, which) =>
      if j == i {
        HandleFine(ClockOf(w, f, w.nodes[i]), w.nodes[i], which);
      }
    case Tick =>
      var n := w.nodes[i].sc;
      if n.state.Backup? {
        assert !IsDue(w, i, if n.cfg.naddrs > 0 then MdTmo else Md6Tmo);
      }
  }

  /** Over every run of a segment -- whoever is master at its start, and whatever order
      things happen in -- the fastest node stays master once it is; and if it preempts,
      it is master by the time it has waited out its first delay. */
  lemma {:induction false} FastestBecomesMaster(w: World, f: Timeval -> int, i: nat, run: seq<CarpElection.Step>)
    requires Segment(w) && Fastest(w, i) && IsRun(w, f, run)
    ensures var w1 := RunAll(w, f, run);
      && Segment(w1) && Fastest(w1, i)
      && (w.nodes[i].sc.state.Master? ==> w1.nodes[i].sc.state.Master?)
      && (w.nodes[i].sc.state.Backup? && w1.now > w.now && w1.now > Deadline(w.nodes[i].sc) ==>
            w1.nodes[i].sc.state.Master?)
    decreases |run|
  {
    hide Next, Enabled;
    if run != [] {
      var w1 := Next(w, f, run[0]);
      StepSegment(w, f, run[0]);
      SameFastest(w, w1, i);
      FastestStep(w, f, i, run[0]);
      FastestBecomesMaster(w1, f, i, run[1..]);
    }
  }

  /** And then alone: when the master that is fastest has advertised next, the premise of
      the election holds, so that it stays the only master over every run if and only if
      the others are patient and none of their callouts is loose. */
  lemma FastestAlone(w: World, f: Timeval -> int, i: nat)
    requires Ticking(f) && Segment(w) && Fastest(w, i) && w.nodes[i].sc.state.Master?
    requires w.wire == [] && IsDue(w, i, AdTmo) && (w.nodes[i].sc.cfg.ia || w.nodes[i].sc.cfg.ia6)
    ensures var w1 := Fire(w, f, i, AdTmo);
      && Advertised(w1, f, i) && (StaysSole(w1, f, i) <==> AllPatient(w1, f, i) && NoneLoose(w1, i))
  {
    hide Proper, AdTimeout, StaysSole, AllPatient, NoneLoose;
    assert Leads(w.nodes, i) by {
      forall j | 0 <= j < |w.nodes| && j != i
        ensures Follows(w.nodes[i].sc, w.nodes[j])
      {
        assert Faster(w.nodes[i].sc, w.nodes[j].sc);
      }
    }
    AdvertisingStarts(w, f, i);
    SoleMasterExactly(Fire(w, f, i, AdTmo), f, i);
  }

  // ------------------------------------------------------------------- an example

  function Ticks(t: Timeval): int { 1 }

  const SLOW := Node(Softc(Master, true, true, Config(1, 1, 100, 1, 0, true, false), Callouts(Some(0), None, None),
                           Tally(0, 0), false, false), false, 0)
  const FAST := Node(Softc(Backup, true, true, Config(1, 1, 0, 1, 0, true, false), Callouts(None, Some(3), None),
                           Tally(0, 0), false, false), true, 0)

  /** Such a segment, and its first two steps: a slower master advertises, and the
      backup that preempts is master. */
  lemma PreemptionHappens(w: World)
    requires w == World(0, [SLOW, FAST], [])
    ensures Segment(w) && Fastest(w, 1) && IsRun(w, Ticks, [Timeout(0, AdTmo), Arrive])
    ensures RunAll(w, Ticks, [Timeout(0, AdTmo), Arrive]).nodes[1].sc.state.Master?
  {
    hide CarpElection.Handle, Deliver;
    var run := [CarpElection.Timeout(0, AdTmo), Arrive];
    assert Segment(w) && Fastest(w, 1) && IsDue(w, 0, AdTmo);
    StepSegment(w, Ticks, run[0]);
    var w1 := Next(w, Ticks, run[0]);
    SameFastest(w, w1, 1);
    assert w1.wire == [Packet(0, Ad(Inet, 1, 100))] by { SlowSends(w); }
    FastestHears(w1, Ticks, 1);
    var w2 := Deliver(w1, Ticks);
    assert run[1..] == [Arrive] && [Arrive][1..] == [];
    assert Next(w1, Ticks, Arrive) == w2;
    assert IsRun(w2, Ticks, []) && RunAll(w2, Ticks, []) == w2;
    assert IsRun(w1, Ticks, [Arrive]) && RunAll(w1, Ticks, [Arrive]) == w2;
    assert IsRun(w, Ticks, run) && RunAll(w, Ticks, run) == w2;
  }

  lemma SlowSends(w: World)
    requires w == World(0, [SLOW, FAST], [])
    ensures Fire(w, Ticks, 0, AdTmo).wire == [Packet(0, Ad(Inet, 1, 100))]
  {
    LeaderSends(ClockOf(w, Ticks, SLOW), SLOW);
  }
}
