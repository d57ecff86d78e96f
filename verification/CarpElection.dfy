/** Several hosts with one vhid on a segment that loses nothing and delays
    nothing: the node with the least interval, once master, stays the only one. */
module CarpElection {
  import opened Options
  import opened Carp

  // A host's interface with its preempt option and its carp_suppress_preempt.
  datatype Node = Node(sc: Softc, preempt: bool, sup: int)

  datatype Packet = Packet(from: nat, ad: Ad)

  /** The segment: the time, the nodes and the advertisements under way. */
  datatype World = World(now: int, nodes: seq<Node>, wire: seq<Packet>)

  const ALL_WELL := Net(true, true, true, true, true, true)

  function ClockOf(w: World, tvtohz: Timeval -> int, n: Node): Clock {
    Clock(w.now, tvtohz, n.preempt)
  }

  // -------------------------------------------------------------------- steps

  function Hear(w: World, f: Timeval -> int, n: Node, ad: Ad): Out {
    Input(ClockOf(w, f, n), n.sc, n.sup, ad, ALL_WELL)
  }

  function After(n: Node, o: Out): Node { n.(sc := o.sc, sup := o.sup) }

  function Packets(from: nat, ads: seq<Ad>): seq<Packet> {
    seq(|ads|, k requires 0 <= k < |ads| => Packet(from, ads[k]))
  }

  // What the nodes from the k-th on send in answer.
  function Answers(w: World, f: Timeval -> int, p: Packet, k: nat): seq<Packet>
    decreases |w.nodes| - k
  {
    if k >= |w.nodes| then []
    else (if k == p.from then [] else Packets(k, Hear(w, f, w.nodes[k], p.ad).ads)) + Answers(w, f, p, k + 1)
  }

  // The first packet on the wire reaches every other node.
  function Deliver(w: World, f: Timeval -> int): World
    requires w.wire != []
  {
    var p := w.wire[0];
    World(w.now,
          seq(|w.nodes|, k requires 0 <= k < |w.nodes| =>
            if k == p.from then w.nodes[k] else After(w.nodes[k], Hear(w, f, w.nodes[k], p.ad))),
          w.wire[1..] + Answers(w, f, p, 0))
  }

  datatype Callout = AdTmo | MdTmo | Md6Tmo

  function DueAt(sc: Softc, which: Callout): Option<int> {
    match which
    case AdTmo => sc.timers.ad
    case MdTmo => sc.timers.md
    case Md6Tmo => sc.timers.md6
  }

  predicate IsDue(w: World, i: nat, which: Callout)
    requires i < |w.nodes|
  {
    DueAt(w.nodes[i].sc, which).Some? && DueAt(w.nodes[i].sc, which).value <= w.now
  }

  function Handle(c: Clock, n: Node, which: Callout): Out {
    match which
    case AdTmo => AdTimeout(c, n.sc, n.sup, ALL_WELL)
    case MdTmo => MasterDown(c, n.sc.(timers := n.sc.timers.(md := None)), n.sup, ALL_WELL)
    case Md6Tmo => MasterDown(c, n.sc.(timers := n.sc.timers.(md6 := None)), n.sup, ALL_WELL)
  }

  function Fire(w: World, f: Timeval -> int, i: nat, which: Callout): World
    requires i < |w.nodes|
  {
    var n := w.nodes[i];
    var o := Handle(ClockOf(w, f, n), n, which);
    World(w.now, w.nodes[i := After(n, o)], w.wire + Packets(i, o.ads))
  }

  /** A step of the segment. No packet stays on the wire while a callout runs or
      time passes, and no time passes while a callout is due. */
  datatype Step = Arrive | Timeout(node: nat, which: Callout) | Tick

  predicate Enabled(w: World, s: Step) {
    match s
    case Arrive => w.wire != []
    case Timeout(i, which) => w.wire == [] && i < |w.nodes| && IsDue(w, i, which)
    case Tick => w.wire == [] && forall i, which :: 0 <= i < |w.nodes| ==> !IsDue(w, i, which)
  }

  function Next(w: World, f: Timeval -> int, s: Step): World
    requires Enabled(w, s)
  {
    match s
    case Arrive => Deliver(w, f)
    case Timeout(i, which) => Fire(w, f, i, which)
    case Tick => w.(now := w.now + 1)
  }

  ghost predicate IsRun(w: World, f: Timeval -> int, run: seq<Step>)
    decreases |run|
  {
    run == [] || (Enabled(w, run[0]) && IsRun(Next(w, f, run[0]), f, run[1..]))
  }

  function RunAll(w: World, f: Timeval -> int, run: seq<Step>): World
    requires IsRun(w, f, run)
    decreases |run|
  {
    if run == [] then w else RunAll(Next(w, f, run[0]), f, run[1..])
  }

  // ---------------------------------------------------------------- the leader

  function OwnTv(sc: Softc): Timeval { Interval(sc.cfg.advbase, sc.cfg.advskew) }

  // How long a backup waits for a master.
  function DownTv(sc: Softc): Timeval { Interval(3 * sc.cfg.advbase, sc.cfg.advskew) }

  // A delay as long as carp's can be: at most three of the longest intervals.
  predicate Bounded(a: Timeval) { 0 <= a.sec <= 3 * 255 && 0 <= a.usec < 1000000 }

  // A delay takes a tick at least.
  ghost predicate Ticking(f: Timeval -> int) { forall a: Timeval :: Bounded(a) ==> f(a) >= 1 }

  // A running node that is set up as the theorem asks.
  ghost predicate Proper(n: Node) {
    && n.sc.running && Alive(n.sc) && n.sup == 0 && n.sc.tally.errors < CARP_SENDAD_MAX_ERRORS
    && 0 <= n.sc.cfg.advbase <= 255 && 0 <= n.sc.cfg.advskew < 255
  }

  predicate SendsIn(sc: Softc, af: Family) {
    if af == Inet then sc.cfg.ia else sc.cfg.ia6
  }

  function Waits(sc: Softc, af: Family): Option<int> {
    if af == Inet then sc.timers.md else sc.timers.md6
  }

  predicate HasAddress(sc: Softc, af: Family) {
    if af == Inet then sc.cfg.naddrs > 0 else sc.cfg.naddrs6 > 0
  }

  // No node's interval is less than the leader's.
  predicate NotBelow(lead: Softc, sc: Softc) {
    lead.cfg.advbase < sc.cfg.advbase ||
    (lead.cfg.advbase == sc.cfg.advbase && lead.cfg.advskew <= sc.cfg.advskew)
  }

  // Another node, no faster than the leader.
  ghost predicate Follows(lead: Softc, n: Node) { Proper(n) && NotBelow(lead, n.sc) }

  ghost predicate Leads(nodes: seq<Node>, l: nat) {
    && l < |nodes| && Proper(nodes[l]) && (nodes[l].sc.cfg.ia || nodes[l].sc.cfg.ia6)
    && nodes[l].sc.state.Master? && nodes[l].sc.timers.ad.Some?
    && forall i :: 0 <= i < |nodes| && i != l ==> Follows(nodes[l].sc, nodes[i])
  }

  function LeaderAds(sc: Softc): seq<Ad> {
    (if sc.cfg.ia then [Ad(Inet, sc.cfg.advbase, sc.cfg.advskew)] else [])
    + (if sc.cfg.ia6 then [Ad(Inet6, sc.cfg.advbase, sc.cfg.advskew)] else [])
  }

  ghost predicate FromLeader(lead: Softc, l: nat, p: Packet) {
    && p.from == l && p.ad.family != AnyFamily && SendsIn(lead, p.ad.family)
    && p.ad.advbase == lead.cfg.advbase && p.ad.advskew == lead.cfg.advskew
  }

  ghost predicate OnWire(wire: seq<Packet>, af: Family) {
    exists k :: 0 <= k < |wire| && wire[k].ad.family == af
  }

  ghost predicate OthersWait(nodes: seq<Node>, l: nat) {
    forall i :: 0 <= i < |nodes| && i != l ==> nodes[i].sc.state.Backup?
  }

  ghost predicate OnlyMaster(nodes: seq<Node>, l: nat) {
    l < |nodes| && nodes[l].sc.state.Master? && OthersWait(nodes, l)
  }

  /** The leader is master and its advertisement is on its way or has arrived. Of the
      other nodes nothing is asked but that they run and are no faster. */
  ghost predicate Advertised(w: World, f: Timeval -> int, l: nat) {
    && Leads(w.nodes, l)
    && var lead := w.nodes[l].sc;
    && w.now <= lead.timers.ad.value
    && (forall k :: 0 <= k < |w.wire| ==> FromLeader(lead, l, w.wire[k]))
    && (w.wire != [] ==> lead.timers.ad.value == w.now + f(OwnTv(lead)))
    && (OthersWait(w.nodes, l) || w.wire == Packets(l, LeaderAds(lead)))
  }

  // Whether a node's callout in a family stays as it is when it hears what is on the
  // wire: a backup arms the family of an advertisement, but a master that steps down
  // those in which it has an address.
  ghost predicate Unheard(n: Node, wire: seq<Packet>, af: Family) {
    if n.sc.state.Master? then !HasAddress(n.sc, af) && (wire != [] ==> !OnWire(wire[1..], af))
    else !OnWire(wire, af)
  }

  /** A callout of another node that the leader does not keep from firing: in a family
      the leader is silent in, or left from earlier and due no later than the leader's
      next advertisement. */
  ghost predicate Loose(lead: Softc, n: Node, wire: seq<Packet>, af: Family) {
    && af != AnyFamily && lead.timers.ad.Some?
    && ((n.sc.state.Master? && HasAddress(n.sc, af) && !SendsIn(lead, af)) ||
        (Unheard(n, wire, af) && Waits(n.sc, af).Some? &&
         (!SendsIn(lead, af) || Waits(n.sc, af).value <= lead.timers.ad.value)))
  }

  ghost predicate LooseAt(w: World, l: nat, i: nat, af: Family) {
    l < |w.nodes| && i < |w.nodes| && i != l && Loose(w.nodes[l].sc, w.nodes[i], w.wire, af)
  }

  // The node waits longer than the leader takes to its next advertisement.
  predicate Patient(f: Timeval -> int, lead: Softc, n: Node) { f(OwnTv(lead)) < f(DownTv(n.sc)) }

  ghost predicate AllPatient(w: World, f: Timeval -> int, l: nat) {
    forall i :: 0 <= i < |w.nodes| && l < |w.nodes| && i != l ==> Patient(f, w.nodes[l].sc, w.nodes[i])
  }

  ghost predicate NoneLoose(w: World, l: nat) { forall i, af :: !LooseAt(w, l, i, af) }

  // ------------------------------------------------------------------- hearing

  // Nobody finds the leader slow.
  lemma NotSlower(lead: Softc, sc: Softc)
    requires NotBelow(lead, sc) && 0 <= lead.cfg.advskew < 255 && 0 <= sc.cfg.advskew < 255
    requires 0 <= lead.cfg.advbase <= 255 && 0 <= sc.cfg.advbase <= 255
    ensures !Less(OwnTv(sc), OwnTv(lead))
    ensures !Less(OwnTv(sc).(sec := 3 * sc.cfg.advbase), OwnTv(lead))
    ensures Bounded(OwnTv(lead))
  {
  }

  // The families a node arms when it hears one of `heard`.
  predicate Arms(n: Node, heard: Family, af: Family) {
    if n.sc.state.Master? then HasAddress(n.sc, af) else af == heard
  }

  /** Hearing the leader, a node is or becomes a backup and sends nothing; it arms some
      of its callouts anew, and the others stay. */
  lemma HearLeader(c: Clock, n: Node, lead: Softc, ad: Ad)
    requires Proper(n) && NotBelow(lead, n.sc)
    requires 0 <= lead.cfg.advbase <= 255 && 0 <= lead.cfg.advskew < 255
    requires ad.family != AnyFamily && ad.advbase == lead.cfg.advbase && ad.advskew == lead.cfg.advskew
    ensures var o := Input(c, n.sc, n.sup, ad, ALL_WELL);
      && o.ads == [] && o.sup == 0 && o.sc.state.Backup? && o.sc.running
      && o.sc.cfg == n.sc.cfg && o.sc.tally == n.sc.tally && Alive(o.sc)
      && forall af :: af != AnyFamily ==>
           Waits(o.sc, af) == if Arms(n, ad.family, af) then Due(c, DownTv(n.sc)) else Waits(n.sc, af)
  {
    hide SendAd, MasterDown, Interval;
    InputAlive(c, n.sc, n.sup, ad, ALL_WELL);
    NotSlower(lead, n.sc);
    assert OwnTv(lead) == Interval(ad.advbase, ad.advskew);
    var o := Input(c, n.sc, n.sup, ad, ALL_WELL);
    assert OwnInterval(n.sc, 0) == OwnTv(n.sc);
    var own, other := OwnTv(n.sc), OwnTv(lead);
    assert Less(other, own) || other == own;
    assert CanRun(n.sc);
    if n.sc.state.Master? {
      assert o.sc.timers == AwaitMaster(c, n.sc.cfg, n.sc.timers, AnyFamily);
    } else {
      assert o.sc.timers == AwaitMaster(c, n.sc.cfg, n.sc.timers, ad.family);
    }
  }

  lemma WireTail(wire: seq<Packet>, af: Family)
    requires wire != []
    ensures OnWire(wire, af) <==> wire[0].ad.family == af || OnWire(wire[1..], af)
  {
    if OnWire(wire[1..], af) {
      var k :| 0 <= k < |wire[1..]| && wire[1..][k].ad.family == af;
      assert wire[k + 1].ad.family == af;
    }
  }

  // --------------------------------------------------------------------- steps

  lemma {:induction false} NoAnswers(w: World, f: Timeval -> int, p: Packet, k: nat)
    requires forall i :: k <= i < |w.nodes| && i != p.from ==> Hear(w, f, w.nodes[i], p.ad).ads == []
    ensures Answers(w, f, p, k) == []
    decreases |w.nodes| - k
  {
    if k < |w.nodes| {
      NoAnswers(w, f, p, k + 1);
    }
  }

  // What one node hears leaves its loose callouts loose, and makes none loose if it is
  // patient.
  lemma OneHears(w: World, f: Timeval -> int, l: nat, i: nat, af: Family)
    requires Ticking(f) && Advertised(w, f, l) && w.wire != [] && i < |w.nodes| && i != l
    ensures var lead, n, o := w.nodes[l].sc, w.nodes[i], Hear(w, f, w.nodes[i], w.wire[0].ad);
      && o.ads == [] && o.sc.state.Backup? && Follows(lead, After(n, o)) && o.sc.cfg == n.sc.cfg
      && (Loose(lead, n, w.wire, af) ==> Loose(lead, After(n, o), w.wire[1..], af))
      && (Patient(f, lead, n) && Loose(lead, After(n, o), w.wire[1..], af) ==> Loose(lead, n, w.wire, af))
  {
    hide Input, OwnTv, DownTv, LeaderAds;
    var lead, n, p := w.nodes[l].sc, w.nodes[i], w.wire[0];
    assert FromLeader(lead, l, p) && Follows(lead, n);
    HearLeader(ClockOf(w, f, n), n, lead, p.ad);
    WireTail(w.wire, af);
    assert OnWire(w.wire[1..], af) ==> SendsIn(lead, af) by { WireSends(w.wire, lead, l, af); }
  }

  lemma WireSends(wire: seq<Packet>, lead: Softc, l: nat, af: Family)
    requires forall k :: 0 <= k < |wire| ==> FromLeader(lead, l, wire[k])
    ensures OnWire(wire, af) ==> SendsIn(lead, af)
    ensures wire != [] && OnWire(wire[1..], af) ==> SendsIn(lead, af)
  {
  }

  lemma ArriveAdvertised(w: World, f: Timeval -> int, l: nat)
    requires Ticking(f) && Advertised(w, f, l) && w.wire != []
    ensures var w1 := Deliver(w, f);
      && Advertised(w1, f, l) && OthersWait(w1.nodes, l) && w1.wire == w.wire[1..] && w1.nodes[l] == w.nodes[l]
      && w1.now == w.now && |w1.nodes| == |w.nodes|
      && (forall i :: 0 <= i < |w.nodes| ==> w1.nodes[i].sc.cfg == w.nodes[i].sc.cfg)
      && (forall i, af :: LooseAt(w, l, i, af) ==> LooseAt(w1, l, i, af))
      && (AllPatient(w, f, l) ==> forall i, af :: LooseAt(w1, l, i, af) ==> LooseAt(w, l, i, af))
  {
    hide Hear, Follows, Loose, OwnTv, Ticking, Proper, LeaderAds, Packets, SendsIn, Patient;
    var lead, p, w1 := w.nodes[l].sc, w.wire[0], Deliver(w, f);
    assert FromLeader(lead, l, p);
    forall i | 0 <= i < |w.nodes| && i != l
      ensures var o := Hear(w, f, w.nodes[i], p.ad);
        && o.ads == [] && w1.nodes[i] == After(w.nodes[i], o) && o.sc.state.Backup? && Follows(lead, w1.nodes[i])
        && o.sc.cfg == w.nodes[i].sc.cfg
    {
      OneHears(w, f, l, i, Inet);
    }
    forall i, af | 0 <= i < |w.nodes| && i != l
      ensures Loose(lead, w.nodes[i], w.wire, af) ==> Loose(lead, w1.nodes[i], w.wire[1..], af)
      ensures Patient(f, lead, w.nodes[i]) && Loose(lead, w1.nodes[i], w.wire[1..], af) ==>
        Loose(lead, w.nodes[i], w.wire, af)
    {
      OneHears(w, f, l, i, af);
    }
    NoAnswers(w, f, p, 0);
    assert w1.wire == w.wire[1..];
  }

  // An advertisement that comes due goes out in all the leader's families.
  lemma LeaderSends(c: Clock, n: Node)
    requires Proper(n) && n.sc.state.Master? && n.sc.timers.ad.Some?
    ensures var o := AdTimeout(c, n.sc, n.sup, ALL_WELL);
      && o.ads == LeaderAds(n.sc) && o.sup == 0 && o.sc.tally.errors < CARP_SENDAD_MAX_ERRORS
      && o.sc.cfg == n.sc.cfg && o.sc.state.Master? && o.sc.running && Alive(o.sc)
      && o.sc.timers == n.sc.timers.(ad := Some(c.now + c.tvtohz(OwnTv(n.sc))))
  {
    AdTimeoutAliveExactly(c, n.sc, n.sup, ALL_WELL);
  }

  lemma AdsFromLeader(sc: Softc, l: nat, k: nat)
    requires k < |LeaderAds(sc)|
    ensures FromLeader(sc, l, Packets(l, LeaderAds(sc))[k])
  {
  }

  lemma AdsInFamily(sc: Softc, l: nat, af: Family)
    requires af != AnyFamily && SendsIn(sc, af)
    ensures OnWire(Packets(l, LeaderAds(sc)), af)
  {
    var k := if af == Inet6 && sc.cfg.ia then 1 else 0;
    assert Packets(l, LeaderAds(sc))[k].ad.family == af;
  }

  // Which callout waits in a family.
  function Awaiting(af: Family): Callout { if af == Inet then MdTmo else Md6Tmo }

  function FamilyOf(which: Callout): Family
    requires !which.AdTmo?
  {
    if which.MdTmo? then Inet else Inet6
  }

  lemma SameCfgSameTv(a: Softc, b: Softc)
    requires a.cfg == b.cfg
    ensures OwnTv(a) == OwnTv(b) && LeaderAds(a) == LeaderAds(b)
    ensures forall af :: SendsIn(a, af) == SendsIn(b, af)
  {
  }

  /** How it starts: a proper master that is not above anyone advertises, whatever the
      other nodes are at that moment. */
  lemma AdvertisingStarts(w: World, f: Timeval -> int, l: nat)
    requires Ticking(f) && w.wire == [] && Leads(w.nodes, l) && IsDue(w, l, AdTmo)
    ensures var w1 := Fire(w, f, l, AdTmo);
      && Advertised(w1, f, l) && w1.wire == Packets(l, LeaderAds(w.nodes[l].sc)) && w1.now == w.now
      && w1.nodes[l].sc.timers == w.nodes[l].sc.timers.(ad := w1.nodes[l].sc.timers.ad)
      && w1.nodes[l].sc.timers.ad.value > w.now && w1.nodes[l].sc.cfg == w.nodes[l].sc.cfg
      && w1.nodes == w.nodes[l := w1.nodes[l]]
  {
    hide OwnTv, AdTimeout;
    var lead, w1 := w.nodes[l].sc, Fire(w, f, l, AdTmo);
    LeaderSends(ClockOf(w, f, w.nodes[l]), w.nodes[l]);
    SameCfgSameTv(lead, w1.nodes[l].sc);
    assert w1.wire == Packets(l, LeaderAds(lead));
    NotSlower(lead, lead);
    forall k | 0 <= k < |w1.wire|
      ensures FromLeader(w1.nodes[l].sc, l, w1.wire[k])
    {
      AdsFromLeader(w1.nodes[l].sc, l, k);
    }
    forall i | 0 <= i < |w.nodes| && i != l
      ensures Follows(w1.nodes[l].sc, w1.nodes[i])
    {
      assert Follows(lead, w.nodes[i]);
    }
  }

  // Once all others wait, a further advertisement leaves loose what it is not sent for.
  lemma AdvertisingAgain(w: World, f: Timeval -> int, l: nat, i: nat, af: Family)
    requires Ticking(f) && Advertised(w, f, l) && w.wire == [] && IsDue(w, l, AdTmo)
    requires l < |w.nodes| && i < |w.nodes|
    ensures OthersWait(w.nodes, l) && OthersWait(Fire(w, f, l, AdTmo).nodes, l)
    ensures LooseAt(Fire(w, f, l, AdTmo), l, i, af) <==> LooseAt(w, l, i, af) && !SendsIn(w.nodes[l].sc, af)
  {
    hide OwnTv, AdTimeout, Proper, Ticking;
    WireEmpty(w, f, l);
    AdvertisingStarts(w, f, l);
    var lead, w1 := w.nodes[l].sc, Fire(w, f, l, AdTmo);
    SameCfgSameTv(lead, w1.nodes[l].sc);
    if i != l && af != AnyFamily {
      if SendsIn(lead, af) {
        AdsInFamily(lead, l, af);
      } else {
        WireSends(w1.wire, w1.nodes[l].sc, l, af);
      }
    }
  }

  // On an empty wire the others wait.
  lemma WireEmpty(w: World, f: Timeval -> int, l: nat)
    requires Advertised(w, f, l) && w.wire == []
    ensures OthersWait(w.nodes, l) && OnlyMaster(w.nodes, l)
  {
    var a := LeaderAds(w.nodes[l].sc);
    assert |Packets(l, a)| == |a| > 0;
  }

  // A master-down callout left over on the leader does nothing.
  lemma LeaderIdle(w: World, f: Timeval -> int, l: nat, which: Callout)
    requires Advertised(w, f, l) && w.wire == [] && !which.AdTmo?
    ensures var w1 := Fire(w, f, l, which);
      && Advertised(w1, f, l) && w1.wire == [] && w1.now == w.now && DueAt(w1.nodes[l].sc, which) == None
      && w1.nodes[l].sc.timers.ad == w.nodes[l].sc.timers.ad && w1.nodes[l].sc.cfg == w.nodes[l].sc.cfg
      && (forall other :: other != which ==> DueAt(w1.nodes[l].sc, other) == DueAt(w.nodes[l].sc, other))
      && w1.nodes == w.nodes[l := w1.nodes[l]]
      && forall i, af :: LooseAt(w1, l, i, af) <==> LooseAt(w, l, i, af)
  {
    hide Proper, Loose, OwnTv;
    var lead, w1 := w.nodes[l].sc, Fire(w, f, l, which);
    var sc1 := lead.(timers := if which.MdTmo? then lead.timers.(md := None) else lead.timers.(md6 := None));
    assert w1.nodes[l] == w.nodes[l].(sc := sc1) && w1.wire == [];
    assert Proper(w1.nodes[l]) by { ProperIdle(w.nodes[l], sc1); }
    SameCfgSameTv(lead, sc1);
    forall i | 0 <= i < |w.nodes| && i != l
      ensures Follows(sc1, w.nodes[i])
    {
      assert Follows(lead, w.nodes[i]);
    }
    forall i: nat, af
      ensures LooseAt(w1, l, i, af) <==> LooseAt(w, l, i, af)
    {
      if i < |w.nodes| && i != l {
        LooseIdle(lead, sc1, w.nodes[i], af);
      }
    }
  }

  lemma LooseIdle(a: Softc, b: Softc, n: Node, af: Family)
    requires a.cfg == b.cfg && a.timers.ad == b.timers.ad
    ensures Loose(a, n, [], af) <==> Loose(b, n, [], af)
  {
  }

  lemma ProperIdle(n: Node, sc: Softc)
    requires Proper(n) && n.sc.state.Master?
    requires sc == n.sc.(timers := sc.timers) && sc.timers.ad == n.sc.timers.ad
    ensures Proper(n.(sc := sc))
  {
  }

  lemma TickAdvertised(w: World, f: Timeval -> int, l: nat)
    requires Advertised(w, f, l) && Enabled(w, Tick)
    ensures Advertised(w.(now := w.now + 1), f, l)
    ensures forall i, af :: LooseAt(w.(now := w.now + 1), l, i, af) <==> LooseAt(w, l, i, af)
  {
    hide Follows, Proper, Loose;
    assert !IsDue(w, l, AdTmo);
  }

  predicate BothMaster(w: World, i: nat, l: nat) {
    i != l && i < |w.nodes| && l < |w.nodes| && w.nodes[i].sc.state.Master? && w.nodes[l].sc.state.Master?
  }

  /** If any other node's callout comes due, it is a loose one, and firing it makes that
      node a master beside the leader. */
  lemma OtherFires(w: World, f: Timeval -> int, l: nat, i: nat, which: Callout)
    requires Advertised(w, f, l) && w.wire == [] && i < |w.nodes| && i != l && IsDue(w, i, which)
    ensures !which.AdTmo? && LooseAt(w, l, i, FamilyOf(which)) && BothMaster(Fire(w, f, i, which), i, l)
  {
    hide SendAd, OwnTv;
    WireEmpty(w, f, l);
    var n := w.nodes[i];
    assert Follows(w.nodes[l].sc, n) && n.sc.timers.ad == None;
    var sc := n.sc.(timers := if which.MdTmo? then n.sc.timers.(md := None) else n.sc.timers.(md6 := None));
    SendAdEffect(ClockOf(w, f, n), sc.(state := Master), n.sup, ALL_WELL);
  }

  // ---------------------------------------------------------------------- runs

  // A step in which another node's callout fires.
  predicate TakesOver(l: nat, s: Step) { s.Timeout? && s.node != l }

  lemma SamePatience(w: World, w1: World, f: Timeval -> int, l: nat)
    requires |w1.nodes| == |w.nodes| && forall i :: 0 <= i < |w.nodes| ==> w1.nodes[i].sc.cfg == w.nodes[i].sc.cfg
    ensures AllPatient(w, f, l) ==> AllPatient(w1, f, l)
  {
  }

  lemma StepKeepsCfg(w: World, f: Timeval -> int, l: nat, s: Step)
    requires Ticking(f) && Advertised(w, f, l) && Enabled(w, s) && !TakesOver(l, s)
    ensures var w1 := Next(w, f, s);
      && |w1.nodes| == |w.nodes| && (forall i :: 0 <= i < |w.nodes| ==> w1.nodes[i].sc.cfg == w.nodes[i].sc.cfg)
  {
    hide Advertised, Deliver, Handle, Leads;
    match s
    case Arrive => ArriveAdvertised(w, f, l);
    case Timeout(_, which) =>
      LeaderIs(w, f, l);
      if which.AdTmo? {
        AdvertisingStarts(w, f, l);
      } else {
        LeaderIdle(w, f, l, which);
      }
    case Tick =>
  }

  lemma LeaderIs(w: World, f: Timeval -> int, l: nat)
    requires Advertised(w, f, l)
    ensures Leads(w.nodes, l) && w.nodes[l].sc.timers.ad.Some? && w.now <= w.nodes[l].sc.timers.ad.value
  {
  }

  // As long as no other node takes over, the leader's advertisements go on.
  lemma StepAdvertised(w: World, f: Timeval -> int, l: nat, s: Step)
    requires Ticking(f) && Advertised(w, f, l) && Enabled(w, s) && !TakesOver(l, s)
    ensures Advertised(Next(w, f, s), f, l)
    ensures s.Arrive? || OthersWait(w.nodes, l) ==> OthersWait(Next(w, f, s).nodes, l)
    ensures forall i, af :: LooseAt(w, l, i, af) && !SendsIn(w.nodes[l].sc, af) ==> LooseAt(Next(w, f, s), l, i, af)
    ensures AllPatient(w, f, l) ==> AllPatient(Next(w, f, s), f, l)
    ensures AllPatient(w, f, l) ==> forall i, af :: LooseAt(Next(w, f, s), l, i, af) ==> LooseAt(w, l, i, af)
  {
    hide Advertised, OthersWait, Deliver, Fire, LooseAt, AllPatient;
    assert |Next(w, f, s).nodes| == |w.nodes| && forall i :: 0 <= i < |w.nodes| ==>
      Next(w, f, s).nodes[i].sc.cfg == w.nodes[i].sc.cfg by { StepKeepsCfg(w, f, l, s); }
    SamePatience(w, Next(w, f, s), f, l);
    match s
    case Arrive => ArriveAdvertised(w, f, l);
    case Timeout(_, which) => LeaderFires(w, f, l, which);
    case Tick => TickAdvertised(w, f, l);
  }

  lemma LeaderFires(w: World, f: Timeval -> int, l: nat, which: Callout)
    requires Ticking(f) && Advertised(w, f, l) && w.wire == [] && IsDue(w, l, which)
    ensures var w1 := Fire(w, f, l, which);
      && Advertised(w1, f, l) && OthersWait(w1.nodes, l)
      && (forall i, af :: LooseAt(w1, l, i, af) ==> LooseAt(w, l, i, af))
      && (forall i, af :: LooseAt(w, l, i, af) && !SendsIn(w.nodes[l].sc, af) ==> LooseAt(w1, l, i, af))
  {
    hide Loose, Proper, Follows, Handle;
    WireEmpty(w, f, l);
    if which.AdTmo? {
      AdvertisingStarts(w, f, l);
      forall i, af | 0 <= i < |w.nodes|
        ensures LooseAt(Fire(w, f, l, which), l, i, af) <==> LooseAt(w, l, i, af) && !SendsIn(w.nodes[l].sc, af)
      {
        AdvertisingAgain(w, f, l, i, af);
      }
    } else {
      LeaderIdle(w, f, l, which);
    }
  }

  /** With nothing loose and all patient, over every run of the segment: the leader stays master; from
      the arrival of its advertisement on every other node stays a backup; and no other
      node's callout ever fires. */
  lemma {:induction false} LeaderStaysSoleMaster(w: World, f: Timeval -> int, l: nat, run: seq<Step>)
    requires Ticking(f) && Advertised(w, f, l) && NoneLoose(w, l) && AllPatient(w, f, l) && IsRun(w, f, run)
    ensures var w1 := RunAll(w, f, run);
      && Advertised(w1, f, l) && NoneLoose(w1, l)
      && (OthersWait(w.nodes, l) || |run| >= |w.wire| ==> OnlyMaster(w1.nodes, l))
    ensures forall k :: 0 <= k < |run| && run[k].Timeout? ==> run[k].node == l
    decreases |run|
  {
    hide Advertised, OthersWait, OnlyMaster, Next, LooseAt, AllPatient;
    if run != [] {
      assert !TakesOver(l, run[0]) by { NothingElseDue(w, f, l, run[0]); }
      StepAdvertised(w, f, l, run[0]);
      LeaderStaysSoleMaster(Next(w, f, run[0]), f, l, run[1..]);
      WireShorter(w, f, l, run[0]);
      forall k | 0 <= k < |run|
        ensures run[k].Timeout? ==> run[k].node == l
      {
        if k > 0 {
          assert run[1..][k - 1] == run[k];
        }
      }
    } else if OthersWait(w.nodes, l) || w.wire == [] {
      EndOfRun(w, f, l);
    }
  }

  lemma EndOfRun(w: World, f: Timeval -> int, l: nat)
    requires Advertised(w, f, l) && (OthersWait(w.nodes, l) || w.wire == [])
    ensures OnlyMaster(w.nodes, l)
  {
    if w.wire == [] {
      WireEmpty(w, f, l);
    }
  }

  lemma NothingElseDue(w: World, f: Timeval -> int, l: nat, s: Step)
    requires Advertised(w, f, l) && NoneLoose(w, l) && Enabled(w, s)
    ensures !TakesOver(l, s)
  {
    hide Advertised, LooseAt;
    if TakesOver(l, s) {
      OtherFires(w, f, l, s.node, s.which);
      assert false;
    }
  }

  // Arrivals shorten the wire; nothing else happens before it is empty.
  lemma WireShorter(w: World, f: Timeval -> int, l: nat, s: Step)
    requires Ticking(f) && Advertised(w, f, l) && Enabled(w, s) && !TakesOver(l, s)
    ensures w.wire != [] ==> |Next(w, f, s).wire| == |w.wire| - 1
    ensures w.wire == [] ==> OthersWait(w.nodes, l)
  {
    hide Advertised, OthersWait, Deliver, Fire;
    if w.wire != [] {
      ArriveAdvertised(w, f, l);
    } else {
      WireEmpty(w, f, l);
    }
  }

  // ------------------------------------------------------------ loose callouts

  // A run after which, the wire having been empty, the leader is not the only master.
  ghost predicate Unseats(w: World, f: Timeval -> int, l: nat, run: seq<Step>) {
    IsRun(w, f, run) && |run| >= |w.wire| && !OnlyMaster(RunAll(w, f, run).nodes, l)
  }

  lemma OneStepMore(w: World, f: Timeval -> int, l: nat, s: Step, run: seq<Step>)
    requires Enabled(w, s) && Unseats(Next(w, f, s), f, l, run)
    requires w.wire == [] || |Next(w, f, s).wire| == |w.wire| - 1
    ensures Unseats(w, f, l, [s] + run)
  {
    hide Enabled, Next, OnlyMaster;
    assert ([s] + run)[1..] == run;
  }

  // A take-over is such a run.
  lemma TakeOverUnseats(w: World, f: Timeval -> int, l: nat, i: nat, which: Callout)
    requires Advertised(w, f, l) && w.wire == [] && i < |w.nodes| && i != l && IsDue(w, i, which)
    ensures Unseats(w, f, l, [Timeout(i, which)])
  {
    hide Advertised, Handle;
    OtherFires(w, f, l, i, which);
    var s := Timeout(i, which);
    assert [s][1..] == [] && IsRun(Next(w, f, s), f, []);
    assert RunAll(Next(w, f, s), f, []) == Next(w, f, s);
  }

  function Ahead(w: World, d: int): nat { if d > w.now then d - w.now else 0 }

  // What there is to do before time can go on.
  function Work(w: World, l: nat): nat
    requires l < |w.nodes|
  {
    var t := w.nodes[l].sc.timers;
    |w.wire| + (if t.ad.Some? && t.ad.value <= w.now then 3 else 0) + (if t.md.Some? then 1 else 0)
    + if t.md6.Some? then 1 else 0
  }

  lemma LooseWaits(w: World, l: nat, i: nat, af: Family)
    requires LooseAt(w, l, i, af) && OthersWait(w.nodes, l)
    ensures l < |w.nodes| && i < |w.nodes| && i != l && af != AnyFamily
    ensures Waits(w.nodes[i].sc, af).Some? && !OnWire(w.wire, af)
    ensures !SendsIn(w.nodes[l].sc, af) || Waits(w.nodes[i].sc, af).value <= w.nodes[l].sc.timers.ad.value
  {
  }

  // An arrival leaves its time as it is.
  lemma ArriveKeepsDue(w: World, f: Timeval -> int, l: nat, i: nat, af: Family)
    requires Ticking(f) && Advertised(w, f, l) && w.wire != [] && OthersWait(w.nodes, l) && LooseAt(w, l, i, af)
    ensures Waits(Deliver(w, f).nodes[i].sc, af) == Waits(w.nodes[i].sc, af)
  {
    hide Input, OwnTv, LeaderAds;
    LooseWaits(w, l, i, af);
    var n, p := w.nodes[i], w.wire[0];
    assert FromLeader(w.nodes[l].sc, l, p) && Follows(w.nodes[l].sc, n);
    HearLeader(ClockOf(w, f, n), n, w.nodes[l].sc, p.ad);
    WireTail(w.wire, af);
  }

  // A callout of the leader leaves node i alone, and less to do.
  lemma LeaderWorks(w: World, f: Timeval -> int, l: nat, which: Callout)
    requires Ticking(f) && Advertised(w, f, l) && w.wire == [] && IsDue(w, l, which)
    ensures var w1 := Fire(w, f, l, which);
      && w1.now == w.now && w1.nodes == w.nodes[l := w1.nodes[l]] && Work(w1, l) < Work(w, l)
  {
    hide Handle, Proper, Follows;
    if which.AdTmo? {
      AdvertisingStarts(w, f, l);
      assert |Packets(l, LeaderAds(w.nodes[l].sc))| == |LeaderAds(w.nodes[l].sc)| <= 2;
    } else {
      LeaderIdle(w, f, l, which);
      assert forall other :: other != which ==>
        DueAt(Fire(w, f, l, which).nodes[l].sc, other) == DueAt(w.nodes[l].sc, other);
      var sc := w.nodes[l].sc;
      assert DueAt(sc, AdTmo) == sc.timers.ad && DueAt(sc, MdTmo) == sc.timers.md && DueAt(sc, Md6Tmo) == sc.timers.md6;
    }
  }

  lemma LooseStays(w: World, f: Timeval -> int, l: nat, i: nat, af: Family, which: Callout)
    requires Ticking(f) && Advertised(w, f, l) && w.wire == [] && IsDue(w, l, which)
    requires OthersWait(w.nodes, l) && LooseAt(w, l, i, af) && Waits(w.nodes[i].sc, af).Some?
    requires Waits(w.nodes[i].sc, af).value > w.now
    ensures LooseAt(Fire(w, f, l, which), l, i, af)
  {
    hide Handle, Proper, Follows, Loose;
    LooseWaits(w, l, i, af);
    if which.AdTmo? {
      AdvertisingAgain(w, f, l, i, af);
    } else {
      LeaderIdle(w, f, l, which);
    }
  }

  // Time goes on until the loose callout is due, unless another is due before.
  lemma {:induction false} LooseSplitsWaiting(w: World, f: Timeval -> int, l: nat, i: nat, af: Family)
    returns (run: seq<Step>)
    requires Ticking(f) && Advertised(w, f, l) && OthersWait(w.nodes, l) && LooseAt(w, l, i, af)
    ensures Unseats(w, f, l, run)
    decreases Ahead(w, if Waits(w.nodes[i].sc, af).Some? then Waits(w.nodes[i].sc, af).value else 0), Work(w, l)
  {
    hide Advertised, OthersWait, LooseAt, Deliver, Fire, Unseats, Leads, SendsIn, Ticking;
    LooseWaits(w, l, i, af);
    var d := Waits(w.nodes[i].sc, af).value;
    var s: Step;
    if w.wire != [] {
      s := Arrive;
      ArriveAdvertised(w, f, l);
      ArriveKeepsDue(w, f, l, i, af);
    } else if d <= w.now {
      TakeOverUnseats(w, f, l, i, Awaiting(af));
      return [Timeout(i, Awaiting(af))];
    } else if which :| IsDue(w, l, which) {
      s := Timeout(l, which);
      LeaderFires(w, f, l, which);
      LeaderWorks(w, f, l, which);
      LooseStays(w, f, l, i, af, which);
    } else if j: nat, which :| j < |w.nodes| && IsDue(w, j, which) {
      TakeOverUnseats(w, f, l, j, which);
      return [Timeout(j, which)];
    } else {
      s := Tick;
      TickAdvertised(w, f, l);
    }
    StepAdvertised(w, f, l, s);
    WireShorter(w, f, l, s);
    var rest := LooseSplitsWaiting(Next(w, f, s), f, l, i, af);
    OneStepMore(w, f, l, s, rest);
    run := [s] + rest;
  }

  lemma LooseSplits(w: World, f: Timeval -> int, l: nat, i: nat, af: Family) returns (run: seq<Step>)
    requires Ticking(f) && Advertised(w, f, l) && LooseAt(w, l, i, af)
    ensures Unseats(w, f, l, run)
  {
    hide Advertised, OthersWait, LooseAt, Deliver, Unseats, Ticking;
    if OthersWait(w.nodes, l) {
      run := LooseSplitsWaiting(w, f, l, i, af);
    } else {
      if w.wire == [] {
        WireEmpty(w, f, l);
        assert false;
      }
      ArriveAdvertised(w, f, l);
      var rest := LooseSplitsWaiting(Deliver(w, f), f, l, i, af);
      OneStepMore(w, f, l, Arrive, rest);
      run := [Arrive] + rest;
    }
  }

  lemma SameImpatience(w: World, w1: World, f: Timeval -> int, l: nat, i: nat)
    requires l < |w.nodes| && i < |w.nodes| && |w1.nodes| == |w.nodes|
    requires w1.nodes[i].sc.cfg == w.nodes[i].sc.cfg && w1.nodes[l].sc.cfg == w.nodes[l].sc.cfg
    ensures Patient(f, w1.nodes[l].sc, w1.nodes[i]) <==> Patient(f, w.nodes[l].sc, w.nodes[i])
  {
  }

  // Hearing the last of an advertisement, a node that is not patient has a loose callout.
  lemma ArriveArms(w: World, f: Timeval -> int, l: nat, i: nat) returns (af: Family)
    requires Ticking(f) && Advertised(w, f, l) && |w.wire| == 1 && i < |w.nodes| && i != l
    requires !Patient(f, w.nodes[l].sc, w.nodes[i])
    ensures LooseAt(Deliver(w, f), l, i, af)
  {
    hide Input, OwnTv, DownTv, LeaderAds;
    var lead, n, p := w.nodes[l].sc, w.nodes[i], w.wire[0];
    assert FromLeader(lead, l, p) && Follows(lead, n);
    HearLeader(ClockOf(w, f, n), n, lead, p.ad);
    af := if n.sc.state.Master? then (if n.sc.cfg.naddrs > 0 then Inet else Inet6) else p.ad.family;
    assert Arms(n, p.ad.family, af);
    assert Deliver(w, f).nodes[l] == w.nodes[l] by { ArriveAdvertised(w, f, l); }
    assert w.wire[1..] == [] && Deliver(w, f).wire == [] by { ArriveAdvertised(w, f, l); }
  }

  lemma {:induction false} ImpatientArrives(w: World, f: Timeval -> int, l: nat, i: nat) returns (run: seq<Step>)
    requires Ticking(f) && Advertised(w, f, l) && w.wire != [] && i < |w.nodes| && i != l
    requires !Patient(f, w.nodes[l].sc, w.nodes[i])
    ensures Unseats(w, f, l, run)
    decreases |w.wire|
  {
    hide Advertised, LooseAt, Deliver, Unseats, Patient, Ticking;
    LeaderIs(w, f, l);
    ArriveAdvertised(w, f, l);
    var rest;
    if |w.wire| == 1 {
      var af := ArriveArms(w, f, l, i);
      rest := LooseSplits(Deliver(w, f), f, l, i, af);
    } else {
      SameImpatience(w, Deliver(w, f), f, l, i);
      rest := ImpatientArrives(Deliver(w, f), f, l, i);
    }
    OneStepMore(w, f, l, Arrive, rest);
    run := [Arrive] + rest;
  }

  // Time goes on until the leader advertises again, unless another is due before.
  lemma {:induction false} ImpatientSplits(w: World, f: Timeval -> int, l: nat, i: nat) returns (run: seq<Step>)
    requires Ticking(f) && Advertised(w, f, l) && l < |w.nodes| && i < |w.nodes| && i != l
    requires !Patient(f, w.nodes[l].sc, w.nodes[i])
    ensures Unseats(w, f, l, run)
    decreases Ahead(w, if w.nodes[l].sc.timers.ad.Some? then w.nodes[l].sc.timers.ad.value else 0), Work(w, l)
  {
    hide Advertised, Fire, Unseats, Patient, Ticking, Leads;
    LeaderIs(w, f, l);
    if w.wire != [] {
      run := ImpatientArrives(w, f, l, i);
    } else if IsDue(w, l, AdTmo) {
      AdvertisingStarts(w, f, l);
      var w1 := Fire(w, f, l, AdTmo);
      SameImpatience(w, w1, f, l, i);
      SendsSomething(w, f, l);
      var rest := ImpatientArrives(w1, f, l, i);
      OneStepMore(w, f, l, Timeout(l, AdTmo), rest);
      run := [Timeout(l, AdTmo)] + rest;
    } else if which :| IsDue(w, l, which) {
      LeaderIdle(w, f, l, which);
      LeaderWorks(w, f, l, which);
      SameImpatience(w, Fire(w, f, l, which), f, l, i);
      var rest := ImpatientSplits(Fire(w, f, l, which), f, l, i);
      OneStepMore(w, f, l, Timeout(l, which), rest);
      run := [Timeout(l, which)] + rest;
    } else if j: nat, which :| j < |w.nodes| && IsDue(w, j, which) {
      TakeOverUnseats(w, f, l, j, which);
      run := [Timeout(j, which)];
    } else {
      TickAdvertised(w, f, l);
      var rest := ImpatientSplits(w.(now := w.now + 1), f, l, i);
      OneStepMore(w, f, l, Tick, rest);
      run := [Tick] + rest;
    }
  }

  lemma SendsSomething(w: World, f: Timeval -> int, l: nat)
    requires Leads(w.nodes, l)
    ensures Packets(l, LeaderAds(w.nodes[l].sc)) != []
  {
    assert |Packets(l, LeaderAds(w.nodes[l].sc))| == |LeaderAds(w.nodes[l].sc)|;
  }

  // Whatever happens, once the wire has been empty the leader is the only master.
  ghost predicate StaysSole(w: World, f: Timeval -> int, l: nat) {
    forall run | IsRun(w, f, run) && |run| >= |w.wire| :: OnlyMaster(RunAll(w, f, run).nodes, l)
  }

  /** The election: once the leader has advertised, it stays the only master over every
      run of the segment if and only if every other node waits longer than the leader's
      interval and has no callout that the leader does not keep from firing. */
  lemma SoleMasterExactly(w: World, f: Timeval -> int, l: nat)
    requires Ticking(f) && Advertised(w, f, l)
    ensures StaysSole(w, f, l) <==> AllPatient(w, f, l) && NoneLoose(w, l)
  {
    hide Advertised, LooseAt, OnlyMaster, IsRun, RunAll, Ticking, Patient;
    LeaderIs(w, f, l);
    if !AllPatient(w, f, l) {
      var i :| 0 <= i < |w.nodes| && l < |w.nodes| && i != l && !Patient(f, w.nodes[l].sc, w.nodes[i]);
      var run := ImpatientSplits(w, f, l, i);
    } else if !NoneLoose(w, l) {
      var i, af :| LooseAt(w, l, i, af);
      var run := LooseSplits(w, f, l, i, af);
    } else {
      forall run | IsRun(w, f, run) && |run| >= |w.wire|
        ensures OnlyMaster(RunAll(w, f, run).nodes, l)
      {
        LeaderStaysSoleMaster(w, f, l, run);
      }
    }
  }

  /** Whole seconds are patience enough: where two of them more are more ticks, no node
      is impatient with a leader that advertises once a second or less often. */
  lemma SecondsArePatient(f: Timeval -> int, lead: Softc, n: Node)
    requires forall a, b :: Bounded(a) && Bounded(b) && a.sec + 2 <= b.sec ==> f(a) < f(b)
    requires Proper(n) && NotBelow(lead, n.sc) && 1 <= lead.cfg.advbase && 0 <= lead.cfg.advskew < 255
    ensures Patient(f, lead, n)
  {
  }

  // -------------------------------------------------------------- every long run

  ghost predicate Rivalled(w: World, l: nat) { exists i :: BothMaster(w, i, l) }

  // At some point of the run another node is master beside the leader.
  ghost predicate Splits(w: World, f: Timeval -> int, run: seq<Step>, l: nat)
    requires IsRun(w, f, run)
    decreases |run|
  {
    run != [] && (Rivalled(Next(w, f, run[0]), l) || Splits(Next(w, f, run[0]), f, run[1..], l))
  }

  // A step before the loose callout is due leaves it as it is.
  lemma StepKeepsDue(w: World, f: Timeval -> int, l: nat, i: nat, af: Family, s: Step)
    requires Ticking(f) && Advertised(w, f, l) && OthersWait(w.nodes, l) && LooseAt(w, l, i, af)
    requires i < |w.nodes| && l < |w.nodes| && Enabled(w, s) && !TakesOver(l, s) && Waits(w.nodes[i].sc, af).Some?
    requires var d := Waits(w.nodes[i].sc, af).value;
      !SendsIn(w.nodes[l].sc, af) || (w.now <= d && d < w.nodes[l].sc.timers.ad.value)
    ensures var w1, d := Next(w, f, s), Waits(w.nodes[i].sc, af).value;
      && i < |w1.nodes| && l < |w1.nodes| && Waits(w1.nodes[i].sc, af) == Some(d) && LooseAt(w1, l, i, af)
      && w1.nodes[l].sc.cfg == w.nodes[l].sc.cfg
      && (w1.now != w.now ==> w1.now == w.now + 1 && w1.now <= d)
      && (SendsIn(w.nodes[l].sc, af) ==>
            w1.nodes[l].sc.timers.ad.Some? && w1.now <= d && d < w1.nodes[l].sc.timers.ad.value)
  {
    hide Advertised, OthersWait, Deliver, Proper, Follows, Handle, Leads, Loose, SendsIn, Ticking;
    LooseWaits(w, l, i, af);
    LeaderIs(w, f, l);
    match s
    case Arrive =>
      ArriveAdvertised(w, f, l);
      ArriveKeepsDue(w, f, l, i, af);
      LooseWaits(Deliver(w, f), l, i, af);
    case Timeout(_, which) =>
      LeaderFires(w, f, l, which);
      if which.AdTmo? {
        AdvertisingStarts(w, f, l);
        SameCfgSameTv(w.nodes[l].sc, Fire(w, f, l, which).nodes[l].sc);
      } else {
        LeaderIdle(w, f, l, which);
        SameCfgSameTv(w.nodes[l].sc, Fire(w, f, l, which).nodes[l].sc);
      }
    case Tick =>
      TickAdvertised(w, f, l);
      assert !IsDue(w, i, Awaiting(af));
  }

  /** Where a backup waits in a family the leader is silent in, or is due before the
      leader is, every run in which time goes on past that has two masters -- that
      node or another beside the leader -- however many such nodes there are. */
  lemma {:induction false} LooseAlwaysSplits(w: World, f: Timeval -> int, l: nat, i: nat, af: Family, run: seq<Step>)
    requires Ticking(f) && Advertised(w, f, l) && OthersWait(w.nodes, l) && LooseAt(w, l, i, af)
    requires i < |w.nodes| && l < |w.nodes| && IsRun(w, f, run) && Waits(w.nodes[i].sc, af).Some?
    requires var d := Waits(w.nodes[i].sc, af).value;
      && RunAll(w, f, run).now > d && RunAll(w, f, run).now > w.now
      && (!SendsIn(w.nodes[l].sc, af) || (w.now <= d && d < w.nodes[l].sc.timers.ad.value))
    ensures Splits(w, f, run, l)
    decreases |run|
  {
    hide Advertised, OthersWait, LooseAt, Enabled, Next, Ticking;
    if TakesOver(l, run[0]) {
      assert Rivalled(Next(w, f, run[0]), l) by { TakesOverRivals(w, f, l, run[0]); }
    } else {
      StepAdvertised(w, f, l, run[0]);
      StepKeepsDue(w, f, l, i, af, run[0]);
      LooseAlwaysSplits(Next(w, f, run[0]), f, l, i, af, run[1..]);
    }
  }

  lemma TakesOverRivals(w: World, f: Timeval -> int, l: nat, s: Step)
    requires Advertised(w, f, l) && Enabled(w, s) && TakesOver(l, s)
    ensures Rivalled(Next(w, f, s), l)
  {
    hide Advertised, Handle;
    OtherFires(w, f, l, s.node, s.which);
    assert BothMaster(Next(w, f, s), s.node, l);
  }
}
