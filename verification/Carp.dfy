/** One CARP interface: its state, its three callouts, and the handlers that
    drive it. A handler is one atomic step. */
module Carp {
  import opened Options

  const CARP_SENDAD_MAX_ERRORS := 3
  const CARP_SENDAD_MIN_SUCCESS := 3

  datatype State = Init | Backup | Master
  datatype Family = Inet | Inet6 | AnyFamily

  // What SIOCSVH and the address handlers configure.
  datatype Config = Config(vhid: int, advbase: int, advskew: int,
                           naddrs: nat, naddrs6: nat, ia: bool, ia6: bool)

  // A callout is the time it is due, or `None` when it is not pending.
  datatype Callouts = Callouts(ad: Option<int>, md: Option<int>, md6: Option<int>)

  datatype Tally = Tally(errors: nat, success: nat)

  /** struct carp_softc with the two interface flags it uses; `backupUp` is IFF_UP
      in sc_flags_backup. */
  datatype Softc = Softc(state: State, up: bool, running: bool, cfg: Config, timers: Callouts,
                         tally: Tally, backupUp: bool, suppress: bool)

  const IDLE := Callouts(None, None, None)

  // carp_clone_create
  const FRESH := Softc(Init, false, false, Config(-1, 1, 0, 0, 0, false, false), IDLE, Tally(0, 0), false, false)

  // An advertisement on the wire.
  datatype Ad = Ad(family: Family, advbase: int, advskew: int)

  // Seconds and microseconds; an order on them as timevalcmp has it.
  datatype Timeval = Timeval(sec: int, usec: int)

  predicate Less(a: Timeval, b: Timeval) {
    a.sec < b.sec || (a.sec == b.sec && a.usec < b.usec)
  }

  function Interval(base: int, skew: int): Timeval {
    Timeval(base, skew * 1000000 / 256)
  }

  /** What a handler reads from the host: the time, how long a timeval lasts in
      ticks (tvtohz), and the preempt option. */
  datatype Clock = Clock(now: int, tvtohz: Timeval -> int, preempt: bool)

  /** Whether buffers, packet tags and output calls work, for each family. */
  datatype Net = Net(mbuf4: bool, tag4: bool, out4: bool, mbuf6: bool, tag6: bool, out6: bool)

  function Due(c: Clock, tv: Timeval): Option<int> { Some(c.now + c.tvtohz(tv)) }

  /** Result of a handler: the interface, the host's carp_suppress_preempt, and
      the advertisements that went out. */
  datatype Out = Out(sc: Softc, sup: int, ads: seq<Ad>)

  // ------------------------------------------------------------------- sending

  // Keeping count of failed and successful output calls: the tally and what is
  // added to carp_suppress_preempt.
  function NoteSend(t: Tally, ok: bool): (Tally, int) {
    if !ok then (Tally(t.errors + 1, 0), if t.errors + 1 == CARP_SENDAD_MAX_ERRORS then 1 else 0)
    else if t.errors < CARP_SENDAD_MAX_ERRORS then (t.(errors := 0), 0)
    else if t.success + 1 >= CARP_SENDAD_MIN_SUCCESS then (Tally(0, t.success + 1), -1)
    else (t.(success := t.success + 1), 0)
  }

  predicate IsLive(sc: Softc) { sc.up && sc.running }

  // The interval advertised: "bowing out" when not up and running.
  function AdvBase(sc: Softc): int { if IsLive(sc) then sc.cfg.advbase else 255 }

  function AdvSkew(sc: Softc, sup: int): int {
    if !IsLive(sc) then 255
    else if sup == 0 || sc.cfg.advskew > 240 then sc.cfg.advskew else 240
  }

  // What happens to one family's copy: there is no such address, no buffer, no
  // packet tag, or it is handed to the output call.
  datatype Copy = Skipped | NoBuffer | NoTag | Handed(ok: bool)

  function Copy4(cfg: Config, net: Net): Copy {
    if !cfg.ia then Skipped else if !net.mbuf4 then NoBuffer else if !net.tag4 then NoTag else Handed(net.out4)
  }

  function Copy6(cfg: Config, net: Net): Copy {
    if !cfg.ia6 then Skipped else if !net.mbuf6 then NoBuffer else if !net.tag6 then NoTag else Handed(net.out6)
  }

  // No buffer or no tag ends the handler.
  predicate Stops(copy: Copy) { copy.NoBuffer? || copy.NoTag? }

  function Rearmed(c: Clock, o: Out, base: int, skew: int): Out {
    if base == 255 && skew == 255 then o
    else o.(sc := o.sc.(timers := o.sc.timers.(ad := Due(c, Interval(base, skew)))))
  }

  function SendCopy(c: Clock, o: Out, ad: Ad, copy: Copy): Out {
    match copy
    case Skipped => o
    case NoBuffer => Rearmed(c, o, ad.advbase, ad.advskew)
    case NoTag => o
    case Handed(ok) =>
      var (t, more) := NoteSend(o.sc.tally, ok);
      Out(o.sc.(tally := t), o.sup + more, if ok then o.ads + [ad] else o.ads)
  }

  /** carp_send_ad_locked: an advertisement for each family; then the next one is
      scheduled, unless this one bows out or found no packet tag. */
  function SendAd(c: Clock, sc: Softc, sup: int, net: Net): Out {
    var base, skew := AdvBase(sc), AdvSkew(sc, sup);
    var o4 := SendCopy(c, Out(sc, sup, []), Ad(Inet, base, skew), Copy4(sc.cfg, net));
    if Stops(Copy4(sc.cfg, net)) then o4
    else SendRest(c, o4, Ad(Inet6, base, skew), Copy6(sc.cfg, net))
  }

  // The second family, and the next advertisement.
  function SendRest(c: Clock, o: Out, ad: Ad, copy: Copy): Out {
    var o6 := SendCopy(c, o, ad, copy);
    if Stops(copy) then o6 else Rearmed(c, o6, ad.advbase, ad.advskew)
  }

  // ------------------------------------------------------------------- running

  // The BACKUP case of carp_setrun.
  function AwaitMaster(c: Clock, cfg: Config, t: Callouts, af: Family): Callouts {
    var due := Due(c, Interval(3 * cfg.advbase, cfg.advskew));
    match af
    case Inet => Callouts(None, due, t.md6)
    case Inet6 => Callouts(None, t.md, due)
    case AnyFamily => Callouts(None, if cfg.naddrs > 0 then due else t.md, if cfg.naddrs6 > 0 then due else t.md6)
  }

  predicate CanRun(sc: Softc) {
    sc.up && sc.cfg.vhid > 0 && (sc.cfg.naddrs > 0 || sc.cfg.naddrs6 > 0)
  }

  // carp_setrun
  function SetRun(c: Clock, sc0: Softc, sup: int, af: Family, net: Net): Out {
    if !CanRun(sc0) then Out(sc0.(running := false), sup, [])
    else
      var sc := sc0.(running := true);
      match sc.state
      case Init =>
        if c.preempt && sup == 0 then
          var o := SendAd(c, sc, sup, net);
          o.(sc := o.sc.(state := Master))
        else Out(sc.(state := Backup, timers := AwaitMaster(c, sc.cfg, sc.timers, AnyFamily)), sup, [])
      case Backup => Out(sc.(timers := AwaitMaster(c, sc.cfg, sc.timers, af)), sup, [])
      case Master => Out(sc.(timers := sc.timers.(ad := Due(c, Interval(sc.cfg.advbase, sc.cfg.advskew)))), sup, [])
  }

  // carp_master_down_locked
  function MasterDown(c: Clock, sc: Softc, sup: int, net: Net): Out {
    if !sc.state.Backup? then Out(sc, sup, [])
    else
      var o := SendAd(c, sc.(state := Master), sup, net);
      var p := SetRun(c, o.sc, o.sup, AnyFamily, net);
      Out(p.sc, p.sup, o.ads + p.ads)
  }

  // The interval this interface compares with an advertisement's.
  function OwnInterval(sc: Softc, sup: int): Timeval {
    Interval(sc.cfg.advbase, if sup != 0 && sc.cfg.advskew < 240 then 240 else sc.cfg.advskew)
  }

  // carp_input_c for an advertisement of this vhid that passes its checks.
  function Input(c: Clock, sc: Softc, sup: int, ad: Ad, net: Net): Out {
    if !IsLive(sc) then Out(sc, sup, [])
    else
      var own, other := OwnInterval(sc, sup), Interval(ad.advbase, ad.advskew);
      match sc.state
      case Init => Out(sc, sup, [])
      case Master =>
        if Less(other, own) || other == own then
          SetRun(c, sc.(state := Backup, timers := sc.timers.(ad := None)), sup, AnyFamily, net)
        else Out(sc, sup, [])
      case Backup =>
        if c.preempt && Less(own, other) then MasterDown(c, sc, sup, net)
        else if Less(own.(sec := 3 * sc.cfg.advbase), other) then MasterDown(c, sc, sup, net)
        else SetRun(c, sc, sup, ad.family, net)
  }

  // -------------------------------------------------------------- never stuck

  /** A running interface is not in INIT; as BACKUP it waits for a master in every
      family it has addresses in, as MASTER it will advertise again. */
  ghost predicate Alive(sc: Softc) {
    sc.running ==>
      && CanRun(sc) && !sc.state.Init?
      && (sc.state.Backup? ==>
            && (sc.cfg.naddrs > 0 ==> sc.timers.md.Some?)
            && (sc.cfg.naddrs6 > 0 ==> sc.timers.md6.Some?)
            && sc.timers.ad == None)
      && (sc.state.Master? ==> sc.timers.ad.Some?)
  }

  // SIOCSVH accepts no skew of 255.
  ghost predicate Sane(sc: Softc) { sc.cfg.advskew < 255 }

  /** carp_prepare_ad finds no packet tag in the course of carp_send_ad_locked. */
  predicate TagFails(sc: Softc, net: Net) {
    Copy4(sc.cfg, net).NoTag? || (!Stops(Copy4(sc.cfg, net)) && Copy6(sc.cfg, net).NoTag?)
  }

  ghost predicate TagsWork(net: Net) { net.tag4 && net.tag6 }

  // What carp_send_ad_locked and carp_setrun leave alone.
  ghost predicate SameSetup(a: Softc, b: Softc) {
    a.cfg == b.cfg && a.up == b.up && a.backupUp == b.backupUp && a.suppress == b.suppress
  }

  lemma SendSkipped(c: Clock, o: Out, ad: Ad)
    ensures SendCopy(c, o, ad, Skipped) == o
  {
  }

  lemma SendCopyEffect(c: Clock, o: Out, ad: Ad, copy: Copy)
    ensures var sc := SendCopy(c, o, ad, copy).sc;
      && SameSetup(sc, o.sc) && sc.state == o.sc.state && sc.running == o.sc.running
      && sc.timers == if copy.NoBuffer? then Rearmed(c, o, ad.advbase, ad.advskew).sc.timers else o.sc.timers
  {
  }

  lemma SendAdEffect(c: Clock, sc: Softc, sup: int, net: Net)
    requires Sane(sc)
    ensures var o := SendAd(c, sc, sup, net);
      && SameSetup(o.sc, sc) && o.sc.state == sc.state && o.sc.running == sc.running
      && o.sc.timers == sc.timers.(ad :=
           if IsLive(sc) && !TagFails(sc, net) then Due(c, Interval(AdvBase(sc), AdvSkew(sc, sup)))
           else sc.timers.ad)
  {
    hide SendCopy;
    var base, skew := AdvBase(sc), AdvSkew(sc, sup);
    var o := Out(sc, sup, []);
    SendCopyEffect(c, o, Ad(Inet, base, skew), Copy4(sc.cfg, net));
    var o4 := SendCopy(c, o, Ad(Inet, base, skew), Copy4(sc.cfg, net));
    SendCopyEffect(c, o4, Ad(Inet6, base, skew), Copy6(sc.cfg, net));
  }

  /** Whatever the state before, carp_setrun for all families leaves a live
      interface -- if it can find a packet tag where it preempts. */
  lemma SetRunAlive(c: Clock, sc: Softc, sup: int, net: Net)
    requires Sane(sc)
    requires sc.state.Init? && c.preempt && sup == 0 ==> !TagFails(sc, net)
    ensures var o := SetRun(c, sc, sup, AnyFamily, net);
      Alive(o.sc) && SameSetup(o.sc, sc)
  {
    hide SendAd, TagFails;
    SendAdEffect(c, sc.(running := true), sup, net);
    assert TagFails(sc, net) == TagFails(sc.(running := true), net) by {
      TagFailsConfig(sc, sc.(running := true), net);
    }
  }

  /** carp_setrun lets an interface run if and only if it is up and has a vhid and an
      address; from INIT it becomes master at once exactly if it preempts unsuppressed,
      else backup, and in the other states it stays. */
  lemma RunsExactly(c: Clock, sc: Softc, sup: int, af: Family, net: Net)
    ensures var o := SetRun(c, sc, sup, af, net);
      && (o.sc.running <==> sc.up && sc.cfg.vhid > 0 && sc.cfg.naddrs + sc.cfg.naddrs6 > 0)
      && (!o.sc.running ==> o == Out(sc.(running := false), sup, []))
      && (o.sc.state == Master && sc.state == Init ==> o.ads == SendAd(c, sc.(running := true), sup, net).ads)
      && (!(o.sc.state == Master && sc.state == Init) ==> o.ads == [])
      && (o.sc.running && sc.state != Init ==> o.sc.state == sc.state)
      && (o.sc.running && sc.state == Init ==> o.sc.state == if c.preempt && sup == 0 then Master else Backup)
  {
    hide SendAd;
    SendAdKeepsRunning(c, sc.(running := true), sup, net);
  }

  lemma SendAdKeepsRunning(c: Clock, sc: Softc, sup: int, net: Net)
    ensures var o := SendAd(c, sc, sup, net); o.sc.running == sc.running && o.sc.state == sc.state
  {
  }

  // carp_setrun of an interface that is not up.
  lemma DownStops(c: Clock, sc: Softc, sup: int, net: Net)
    requires !sc.up
    ensures SetRun(c, sc, sup, AnyFamily, net) == Out(sc.(running := false), sup, [])
  {
  }

  lemma TagFailsConfig(a: Softc, b: Softc, net: Net)
    requires a.cfg == b.cfg
    ensures TagFails(a, net) == TagFails(b, net)
  {
  }

  lemma SetRunAliveTags(c: Clock, sc: Softc, sup: int, net: Net)
    requires Sane(sc) && TagsWork(net)
    ensures var o := SetRun(c, sc, sup, AnyFamily, net);
      Alive(o.sc) && SameSetup(o.sc, sc)
  {
    SetRunAlive(c, sc, sup, net);
  }

  // A timed-out master is replaced.
  lemma MasterDownTakesOver(c: Clock, sc: Softc, sup: int, net: Net)
    requires Sane(sc) && sc.state.Backup? && CanRun(sc)
    ensures MasterDown(c, sc, sup, net).sc.state.Master? && MasterDown(c, sc, sup, net).sc.running
  {
    hide SendAd;
    SendAdEffect(c, sc.(state := Master), sup, net);
  }

  lemma MasterDownAlive(c: Clock, sc: Softc, sup: int, net: Net)
    requires Sane(sc) && (sc.state.Backup? || Alive(sc))
    ensures var o := MasterDown(c, sc, sup, net);
      Alive(o.sc) && SameSetup(o.sc, sc)
  {
    hide SendAd, SetRun;
    if sc.state.Backup? {
      SendAdEffect(c, sc.(state := Master), sup, net);
      var o := SendAd(c, sc.(state := Master), sup, net);
      SetRunAlive(c, o.sc, o.sup, net);
    }
  }

  lemma InputAlive(c: Clock, sc: Softc, sup: int, ad: Ad, net: Net)
    requires Sane(sc) && Alive(sc)
    ensures var o := Input(c, sc, sup, ad, net);
      Alive(o.sc) && SameSetup(o.sc, sc)
  {
    hide MasterDown, SendAd;
    MasterDownAlive(c, sc, sup, net);
    SetRunAlive(c, sc.(state := Backup, timers := sc.timers.(ad := None)), sup, net);
  }

  // ------------------------------------------------------------- who is master

  // One interval, as its seconds and its skew, is less than another.
  predicate Below(base: int, skew: int, otherBase: int, otherSkew: int) {
    base < otherBase || (base == otherBase && skew < otherSkew)
  }

  // A larger skew is a longer interval, by 3906 microseconds or more a step.
  lemma SkewsDiffer(a: int, b: int)
    ensures a < b ==> a * 1000000 / 256 < b * 1000000 / 256
  {
  }

  lemma IntervalsBelow(base: int, skew: int, otherBase: int, otherSkew: int)
    ensures Less(Interval(base, skew), Interval(otherBase, otherSkew)) <==> Below(base, skew, otherBase, otherSkew)
    ensures Interval(base, skew) == Interval(otherBase, otherSkew) <==> base == otherBase && skew == otherSkew
  {
    SkewsDiffer(skew, otherSkew);
    SkewsDiffer(otherSkew, skew);
  }

  /** When an advertisement makes a backup master: if and only if preemption is on and
      the backup's interval is below the sender's, or three of its intervals are. The
      skew counts as 240 at least while preemption is suppressed. Else the backup waits
      anew, in the advertisement's family, for three of its intervals as configured. */
  lemma BackupTakesOverExactly(c: Clock, sc: Softc, sup: int, ad: Ad, net: Net)
    requires Sane(sc) && Alive(sc) && sc.running && sc.state == Backup
    ensures var o := Input(c, sc, sup, ad, net);
      var skew := if sup != 0 && sc.cfg.advskew < 240 then 240 else sc.cfg.advskew;
      && o.sc.running && o.sc.state in {Backup, Master}
      && (o.sc.state == Master <==>
            (c.preempt && Below(sc.cfg.advbase, skew, ad.advbase, ad.advskew)) ||
            Below(3 * sc.cfg.advbase, skew, ad.advbase, ad.advskew))
      && (o.sc.state == Backup ==> o.ads == [] && o.sup == sup && o.sc == sc.(timers := o.sc.timers))
      && (o.sc.state == Backup && ad.family != AnyFamily ==>
            var due := Some(c.now + c.tvtohz(Timeval(3 * sc.cfg.advbase, sc.cfg.advskew * 1000000 / 256)));
            o.sc.timers == if ad.family == Inet then sc.timers.(md := due) else sc.timers.(md6 := due))
      && (o.sc.state == Master ==>
            var next := Some(c.now + c.tvtohz(Timeval(sc.cfg.advbase, sc.cfg.advskew * 1000000 / 256)));
            o.sc.timers == sc.timers.(ad := next))
  {
    hide SendAd;
    var skew := if sup != 0 && sc.cfg.advskew < 240 then 240 else sc.cfg.advskew;
    IntervalsBelow(sc.cfg.advbase, skew, ad.advbase, ad.advskew);
    IntervalsBelow(3 * sc.cfg.advbase, skew, ad.advbase, ad.advskew);
    SendAdEffect(c, sc.(state := Master), sup, net);
  }

  /** When it makes a master step down: if and only if the sender's interval is not
      above the master's own. It then waits in every family it has an address in. */
  lemma MasterStepsDownExactly(c: Clock, sc: Softc, sup: int, ad: Ad, net: Net)
    requires Sane(sc) && Alive(sc) && sc.running && sc.state == Master
    ensures var o := Input(c, sc, sup, ad, net);
      var skew := if sup != 0 && sc.cfg.advskew < 240 then 240 else sc.cfg.advskew;
      && o.ads == [] && o.sup == sup
      && (o.sc.state == Backup <==> !Below(sc.cfg.advbase, skew, ad.advbase, ad.advskew))
      && (o.sc.state != Backup ==> o.sc == sc)
      && (o.sc.state == Backup ==>
            var due := Some(c.now + c.tvtohz(Timeval(3 * sc.cfg.advbase, sc.cfg.advskew * 1000000 / 256)));
            o.sc == sc.(state := Backup, timers := Callouts(None, if sc.cfg.naddrs > 0 then due else sc.timers.md,
                                                            if sc.cfg.naddrs6 > 0 then due else sc.timers.md6)))
  {
    var skew := if sup != 0 && sc.cfg.advskew < 240 then 240 else sc.cfg.advskew;
    IntervalsBelow(sc.cfg.advbase, skew, ad.advbase, ad.advskew);
    IntervalsBelow(ad.advbase, ad.advskew, sc.cfg.advbase, skew);
  }

  // An interface that is not running hears nothing.
  lemma NotRunningIsDeaf(c: Clock, sc: Softc, sup: int, ad: Ad, net: Net)
    requires !(sc.up && sc.running)
    ensures Input(c, sc, sup, ad, net) == Out(sc, sup, [])
  {
  }

  /** What goes out: in each family with an address one advertisement, if a buffer, a
      packet tag and the output call work; a failure of buffer or tag in IPv4 keeps that
      of IPv6 back. It shows the configured interval, the skew as 240 at least while
      preemption is suppressed, or 255 and 255 when the interface is bowing out. */
  lemma SentExactly(c: Clock, sc: Softc, sup: int, net: Net)
    ensures var base := if sc.up && sc.running then sc.cfg.advbase else 255;
      var skew := if !(sc.up && sc.running) then 255
                  else if sup != 0 && sc.cfg.advskew < 240 then 240 else sc.cfg.advskew;
      SendAd(c, sc, sup, net).ads ==
        (if sc.cfg.ia && net.mbuf4 && net.tag4 && net.out4 then [Ad(Inet, base, skew)] else []) +
        (if sc.cfg.ia6 && (sc.cfg.ia ==> net.mbuf4 && net.tag4) && net.mbuf6 && net.tag6 && net.out6
         then [Ad(Inet6, base, skew)] else [])
  {
    hide NoteSend;
  }

  // carp_send_ad run as a callout, which is no longer pending then.
  function AdTimeout(c: Clock, sc: Softc, sup: int, net: Net): Out {
    SendAd(c, sc.(timers := sc.timers.(ad := None)), sup, net)
  }

  // One interface's turn in carp_send_ad_all.
  function Resend(c: Clock, sc: Softc, sup: int, net: Net): Out {
    if IsLive(sc) && sc.state.Master? then SendAd(c, sc, sup, net) else Out(sc, sup, [])
  }

  /** When another interface's failures or its lost link first suppress preemption,
      a running master advertises at once and so shows its new skew; a master left
      without a callout has one again if a packet tag is found. */
  lemma ResendRevives(c: Clock, sc: Softc, sup: int, net: Net)
    requires Sane(sc)
    ensures var o := Resend(c, sc, sup, net);
      && o.sc.state == sc.state && o.sc.running == sc.running && SameSetup(o.sc, sc)
      && (!(sc.up && sc.running && sc.state == Master) ==> o == Out(sc, sup, []))
      && (Alive(sc) ==> Alive(o.sc))
      && (IsLive(sc) && CanRun(sc) && sc.state.Master? ==> (Alive(o.sc) <==> Alive(sc) || !TagFails(sc, net)))
  {
    hide SendAd, TagFails;
    SendAdEffect(c, sc, sup, net);
  }

  /** The one way to get stuck: a running MASTER whose advertisement comes due
      goes on if and only if a packet tag is found. */
  lemma AdTimeoutAliveExactly(c: Clock, sc: Softc, sup: int, net: Net)
    requires Sane(sc) && Alive(sc) && sc.timers.ad.Some?
    ensures Alive(AdTimeout(c, sc, sup, net).sc) <==> !(sc.running && sc.state.Master? && TagFails(sc, net))
  {
    hide SendAd, TagFails;
    var sc1 := sc.(timers := sc.timers.(ad := None));
    SendAdEffect(c, sc1, sup, net);
    TagFailsConfig(sc, sc1, net);
  }

  // ------------------------------------------------------------- configuration

  // carp_sc_state_locked. Down, the interface is not up, so carp_setrun does no more.
  function LinkChange(c: Clock, sc: Softc, sup: int, linkUp: bool, net: Net): Out {
    if !linkUp then
      Out(sc.(backupUp := sc.up, up := false, running := false, timers := IDLE, state := Init, suppress := true),
          if sc.suppress then sup else sup + 1, [])
    else
      var o := SetRun(c, sc.(up := sc.up || sc.backupUp, state := Init), sup, AnyFamily, net);
      Out(o.sc.(suppress := false), if o.sc.suppress then o.sup - 1 else o.sup, o.ads)
  }

  // carp_set_addr and carp_set_addr6, after SIOCSIFADDR has set IFF_UP.
  function AddAddr(c: Clock, sc0: Softc, sup: int, inet6: bool, unspecified: bool, fails: bool, own: bool,
                   linkUp: bool, net: Net): Out {
    var sc := sc0.(up := true);
    if unspecified then SetRun(c, sc, sup, AnyFamily, net)
    else if fails then Out(sc, sup, [])
    else
      var cfg := if inet6 then sc.cfg.(ia6 := true, naddrs6 := sc.cfg.naddrs6 + 1)
                 else sc.cfg.(ia := true, naddrs := sc.cfg.naddrs + 1);
      var o := LinkChange(c, sc.(cfg := if own then cfg.(advskew := 0) else cfg), sup, linkUp, net);
      var p := SetRun(c, o.sc, o.sup, AnyFamily, net);
      Out(p.sc, p.sup, o.ads + p.ads)
  }

  // carp_del_addr and carp_del_addr6
  function RemoveAddr(sc: Softc, inet6: bool): Softc
    requires if inet6 then sc.cfg.naddrs6 > 0 else sc.cfg.naddrs > 0
  {
    var cfg := if inet6 then sc.cfg.(naddrs6 := sc.cfg.naddrs6 - 1) else sc.cfg.(naddrs := sc.cfg.naddrs - 1);
    if (if inet6 then cfg.naddrs6 else cfg.naddrs) > 0 then sc.(cfg := cfg)
    else sc.(cfg := cfg.(vhid := -1), timers := sc.timers.(ad := None), up := false, running := false)
  }

  // SIOCSIFFLAGS
  function NewFlags(c: Clock, sc0: Softc, sup: int, up: bool, net: Net): Out {
    var sc := sc0.(up := up);
    if !sc.state.Init? && !up then
      var o := if sc.state.Master? then SendAd(c, sc.(timers := IDLE), sup, net) else Out(sc.(timers := IDLE), sup, []);
      Out(o.sc.(state := Init, running := false), o.sup, o.ads)
    else if sc.state.Init? && up then SetRun(c, sc, sup, AnyFamily, net)
    else Out(sc, sup, [])
  }

  // The forced change of state in SIOCSVH.
  function Forced(c: Clock, sc: Softc, sup: int, state: State, net: Net): Out {
    if sc.state.Init? || state == sc.state || state.Init? then Out(sc, sup, [])
    else if state.Master? then MasterDown(c, sc, sup, net)
    else SetRun(c, sc.(timers := sc.timers.(ad := None), state := Backup), sup, AnyFamily, net)
  }

  predicate Timed(req: Request) { req.advbase > 0 || req.advskew > 0 }

  function WithIntervals(cfg: Config, req: Request): Config {
    if Timed(req) then cfg.(advbase := req.advbase, advskew := req.advskew) else cfg
  }

  // SIOCSVH. What it has set before it finds an error stays set.
  function NewVh(c: Clock, sc: Softc, sup: int, req: Request, taken: bool, net: Net): Out {
    var o := Forced(c, sc, sup, req.state, net);
    if req.vhid > 0 && (req.vhid > 255 || taken) then o
    else
      var cfg := if req.vhid > 0 then o.sc.cfg.(vhid := req.vhid) else o.sc.cfg;
      if Timed(req) && (req.advskew >= 255 || req.advbase > 255) then o.(sc := o.sc.(cfg := cfg))
      else if req.vhid <= 0 && !Timed(req) then o
      else
        var p := SetRun(c, o.sc.(cfg := WithIntervals(cfg, req)), o.sup, AnyFamily, net);
        Out(p.sc, p.sup, o.ads + p.ads)
  }

  // ------------------------------------------------------------------------ runs

  datatype Event =
    | Heard(ad: Ad) | AdDue | MasterDownDue(inet6: bool) | Link(up: bool)
    | NewAddr(inet6: bool, unspecified: bool, fails: bool, own: bool, linkUp: bool) | DelAddr(inet6: bool)
    | Flags(up: bool) | Vh(req: Request, taken: bool) | SendAll

  // A callout can fire and an address can go only if it is there.
  predicate CanHappen(sc: Softc, e: Event) {
    match e
    case AdDue => sc.timers.ad.Some?
    case MasterDownDue(inet6) => if inet6 then sc.timers.md6.Some? else sc.timers.md.Some?
    case DelAddr(inet6) => if inet6 then sc.cfg.naddrs6 > 0 else sc.cfg.naddrs > 0
    case _ => true
  }

  function Handle(c: Clock, sc: Softc, sup: int, e: Event, net: Net): Out
    requires CanHappen(sc, e)
  {
    match e
    case Heard(ad) => Input(c, sc, sup, ad, net)
    case AdDue => AdTimeout(c, sc, sup, net)
    case MasterDownDue(inet6) =>
      MasterDown(c, sc.(timers := if inet6 then sc.timers.(md6 := None) else sc.timers.(md := None)), sup, net)
    case Link(up) => LinkChange(c, sc, sup, up, net)
    case NewAddr(inet6, unspecified, fails, own, linkUp) =>
      AddAddr(c, sc, sup, inet6, unspecified, fails, own, linkUp, net)
    case DelAddr(inet6) => Out(RemoveAddr(sc, inet6), sup, [])
    case Flags(up) => NewFlags(c, sc, sup, up, net)
    case Vh(req, taken) => NewVh(c, sc, sup, req, taken, net)
    case SendAll => Resend(c, sc, sup, net)
  }

  ghost predicate Healthy(sc: Softc) { Alive(sc) && Sane(sc) }

  lemma LinkChangeHealthy(c: Clock, sc: Softc, sup: int, linkUp: bool, net: Net)
    requires Sane(sc) && TagsWork(net)
    ensures Healthy(LinkChange(c, sc, sup, linkUp, net).sc)
  {
    hide SetRun;
    if linkUp {
      SetRunAliveTags(c, sc.(up := sc.up || sc.backupUp, state := Init), sup, net);
    }
  }

  lemma AddAddrHealthy(c: Clock, sc: Softc, sup: int, inet6: bool, unspecified: bool, fails: bool, own: bool,
                       linkUp: bool, net: Net)
    requires Healthy(sc) && TagsWork(net)
    ensures Healthy(AddAddr(c, sc, sup, inet6, unspecified, fails, own, linkUp, net).sc)
  {
    hide SetRun, LinkChange;
    var up := sc.(up := true);
    SetRunAliveTags(c, up, sup, net);
    var cfg := if inet6 then up.cfg.(ia6 := true, naddrs6 := up.cfg.naddrs6 + 1)
               else up.cfg.(ia := true, naddrs := up.cfg.naddrs + 1);
    var sc1 := up.(cfg := if own then cfg.(advskew := 0) else cfg);
    LinkChangeHealthy(c, sc1, sup, linkUp, net);
    var o := LinkChange(c, sc1, sup, linkUp, net);
    SetRunAliveTags(c, o.sc, o.sup, net);
  }

  lemma NewFlagsHealthy(c: Clock, sc: Softc, sup: int, up: bool, net: Net)
    requires Healthy(sc) && TagsWork(net)
    ensures Healthy(NewFlags(c, sc, sup, up, net).sc)
  {
    hide SetRun, SendAd;
    SetRunAliveTags(c, sc.(up := up), sup, net);
    SendAdEffect(c, sc.(up := up, timers := IDLE), sup, net);
  }

  lemma NewVhHealthy(c: Clock, sc: Softc, sup: int, req: Request, taken: bool, net: Net)
    requires Healthy(sc) && TagsWork(net)
    ensures Healthy(NewVh(c, sc, sup, req, taken, net).sc)
  {
    hide SetRun, Forced, Alive;
    ForcedHealthy(c, sc, sup, req.state, net);
    var o := Forced(c, sc, sup, req.state, net);
    if req.vhid > 0 {
      VhidKeepsAlive(o.sc, req.vhid);
    }
    var cfg := if req.vhid > 0 then o.sc.cfg.(vhid := req.vhid) else o.sc.cfg;
    if !(Timed(req) && req.advskew >= 255) {
      SetRunAliveTags(c, o.sc.(cfg := WithIntervals(cfg, req)), o.sup, net);
    }
  }

  lemma VhidKeepsAlive(sc: Softc, vhid: int)
    requires Alive(sc) && vhid > 0
    ensures Alive(sc.(cfg := sc.cfg.(vhid := vhid)))
  {
  }

  lemma ForcedHealthy(c: Clock, sc: Softc, sup: int, state: State, net: Net)
    requires Healthy(sc) && TagsWork(net)
    ensures Healthy(Forced(c, sc, sup, state, net).sc)
  {
    hide SetRun, MasterDown;
    SetRunAliveTags(c, sc.(timers := sc.timers.(ad := None), state := Backup), sup, net);
    MasterDownAlive(c, sc, sup, net);
  }

  lemma HandlerHealthy(c: Clock, sc: Softc, sup: int, e: Event, net: Net)
    requires Healthy(sc) && TagsWork(net) && CanHappen(sc, e)
    ensures Healthy(Handle(c, sc, sup, e, net).sc)
  {
    hide Input, AdTimeout, MasterDown, LinkChange, AddAddr, NewFlags, NewVh, Resend;
    match e
    case Heard(ad) => InputAlive(c, sc, sup, ad, net);
    case AdDue =>
      AdTimeoutAliveExactly(c, sc, sup, net);
      AdTimeoutSane(c, sc, sup, net);
    case MasterDownDue(inet6) =>
      MasterDownAlive(c, sc.(timers := if inet6 then sc.timers.(md6 := None) else sc.timers.(md := None)), sup, net);
    case Link(up) => LinkChangeHealthy(c, sc, sup, up, net);
    case NewAddr(inet6, unspecified, fails, own, linkUp) =>
      AddAddrHealthy(c, sc, sup, inet6, unspecified, fails, own, linkUp, net);
    case DelAddr(inet6) =>
    case Flags(up) => NewFlagsHealthy(c, sc, sup, up, net);
    case Vh(req, taken) => NewVhHealthy(c, sc, sup, req, taken, net);
    case SendAll => ResendRevives(c, sc, sup, net);
  }

  lemma AdTimeoutSane(c: Clock, sc: Softc, sup: int, net: Net)
    requires Sane(sc)
    ensures Sane(AdTimeout(c, sc, sup, net).sc)
  {
    hide SendAd;
    SendAdEffect(c, sc.(timers := sc.timers.(ad := None)), sup, net);
  }

  // One event with its surroundings; carp_suppress_preempt is the host's, and so
  // may be anything when the next event comes.
  datatype Moment = Moment(c: Clock, sup: int, e: Event, net: Net)

  ghost predicate LegalRun(sc: Softc, run: seq<Moment>)
    decreases |run|
  {
    run == [] ||
    (CanHappen(sc, run[0].e) && LegalRun(Handle(run[0].c, sc, run[0].sup, run[0].e, run[0].net).sc, run[1..]))
  }

  function AfterRun(sc: Softc, run: seq<Moment>): Softc
    requires LegalRun(sc, run)
    decreases |run|
  {
    if run == [] then sc else AfterRun(Handle(run[0].c, sc, run[0].sup, run[0].e, run[0].net).sc, run[1..])
  }

  /** CARP never gets stuck: over every run of events in which packet tags are found,
      a running interface is not in INIT, as BACKUP waits for a master in each of its
      families, and as MASTER will advertise again. */
  lemma {:induction false} NeverStuck(sc: Softc, run: seq<Moment>)
    requires Healthy(sc) && LegalRun(sc, run)
    requires forall k :: 0 <= k < |run| ==> TagsWork(run[k].net)
    ensures Healthy(AfterRun(sc, run))
    decreases |run|
  {
    hide Healthy, Handle, CanHappen;
    if run != [] {
      HandlerHealthy(run[0].c, sc, run[0].sup, run[0].e, run[0].net);
      NeverStuck(Handle(run[0].c, sc, run[0].sup, run[0].e, run[0].net).sc, run[1..]);
    }
  }

  lemma FreshIsHealthy()
    ensures Healthy(FRESH)
  {
  }

  // ------------------------------------------------------------------- handlers

  // The global carp_suppress_preempt.
  class Host {
    var suppress: int
    constructor () ensures suppress == 0 { suppress := 0; }
  }

  // What SIOCSVH is called with.
  datatype Request = Request(state: State, vhid: int, advbase: int, advskew: int)

  /** One interface and its entry points. Every entry point takes a live interface
      to a live interface; `ads` are the advertisements it sends. */
  class Interface {
    var sc: Softc
    const host: Host

    constructor (host: Host)
      ensures Valid() && sc == FRESH && this.host == host
    {
      sc, this.host := FRESH, host;
    }

    ghost predicate Valid()
      reads this
    {
      Alive(sc) && Sane(sc)
    }

    // The part of carp_send_ad_locked for one family that has an address.
    method SendOne(c: Clock, ad: Ad, mbuf: bool, tag: bool, works: bool, sent: seq<Ad>)
      returns (go: bool, ads: seq<Ad>)
      modifies this, host
      ensures var copy := if !mbuf then NoBuffer else if !tag then NoTag else Handed(works);
        && go == !Stops(copy)
        && Out(sc, host.suppress, ads) == SendCopy(c, Out(old(sc), old(host.suppress), sent), ad, copy)
    {
      if !mbuf {
        RearmAd(c, ad.advbase, ad.advskew, sent);
        return false, sent;
      }
      if !tag {
        return false, sent;
      }
      CountSend(works);
      return true, if works then sent + [ad] else sent;
    }

    // carp_send_ad_locked
    method SendAdLocked(c: Clock, net: Net) returns (ads: seq<Ad>)
      modifies this, host
      ensures Out(sc, host.suppress, ads) == SendAd(c, old(sc), old(host.suppress), net)
    {
      hide SendCopy, NoteSend, Rearmed, SendRest;
      var base, skew := 255, 255;
      if sc.up && sc.running {
        base := sc.cfg.advbase;
        skew := if host.suppress == 0 || sc.cfg.advskew > 240 then sc.cfg.advskew else 240;
      }
      var go, cfg := true, sc.cfg;
      ads := [];
      SendSkipped(c, Out(sc, host.suppress, ads), Ad(Inet, base, skew));
      if cfg.ia {
        go, ads := SendOne(c, Ad(Inet, base, skew), net.mbuf4, net.tag4, net.out4, ads);
      }
      if go {
        ads := SendSecond(c, cfg, Ad(Inet6, base, skew), net, ads);
      }
    }

    method SendSecond(c: Clock, cfg: Config, ad: Ad, net: Net, sent: seq<Ad>) returns (ads: seq<Ad>)
      modifies this, host
      ensures Out(sc, host.suppress, ads) == SendRest(c, Out(old(sc), old(host.suppress), sent), ad, Copy6(cfg, net))
    {
      hide SendCopy, NoteSend, Rearmed;
      var go := true;
      ads := sent;
      SendSkipped(c, Out(sc, host.suppress, ads), ad);
      if cfg.ia6 {
        go, ads := SendOne(c, ad, net.mbuf6, net.tag6, net.out6, ads);
      }
      if go {
        RearmAd(c, ad.advbase, ad.advskew, ads);
      }
    }

    method RearmAd(c: Clock, base: int, skew: int, ghost ads: seq<Ad>)
      modifies this
      ensures Out(sc, host.suppress, ads) == Rearmed(c, Out(old(sc), host.suppress, ads), base, skew)
    {
      if base != 255 || skew != 255 {
        sc := sc.(timers := sc.timers.(ad := Due(c, Interval(base, skew))));
      }
    }

    method CountSend(ok: bool)
      modifies this, host
      ensures sc == old(sc).(tally := NoteSend(old(sc).tally, ok).0)
      ensures host.suppress == old(host.suppress) + NoteSend(old(sc).tally, ok).1
    {
      var t := sc.tally;
      if !ok {
        t := Tally(t.errors + 1, 0);
        if t.errors == CARP_SENDAD_MAX_ERRORS {
          host.suppress := host.suppress + 1;
        }
      } else if t.errors >= CARP_SENDAD_MAX_ERRORS {
        t := t.(success := t.success + 1);
        if t.success >= CARP_SENDAD_MIN_SUCCESS {
          host.suppress := host.suppress - 1;
          t := t.(errors := 0);
        }
      } else {
        t := t.(errors := 0);
      }
      sc := sc.(tally := t);
    }

    // carp_setrun
    method Run(c: Clock, af: Family, net: Net) returns (ads: seq<Ad>)
      modifies this, host
      ensures Out(sc, host.suppress, ads) == SetRun(c, old(sc), old(host.suppress), af, net)
    {
      ads := [];
      if !(sc.up && sc.cfg.vhid > 0 && (sc.cfg.naddrs > 0 || sc.cfg.naddrs6 > 0)) {
        sc := sc.(running := false);
        return;
      }
      sc := sc.(running := true);
      match sc.state {
        case Init =>
          if c.preempt && host.suppress == 0 {
            ads := SendAdLocked(c, net);
            sc := sc.(state := Master);
          } else {
            sc := sc.(state := Backup, timers := AwaitMaster(c, sc.cfg, sc.timers, AnyFamily));
          }
        case Backup =>
          sc := sc.(timers := AwaitMaster(c, sc.cfg, sc.timers, af));
        case Master =>
          sc := sc.(timers := sc.timers.(ad := Due(c, Interval(sc.cfg.advbase, sc.cfg.advskew))));
      }
    }

    // carp_master_down_locked
    method MasterDownLocked(c: Clock, net: Net) returns (ads: seq<Ad>)
      modifies this, host
      ensures Out(sc, host.suppress, ads) == MasterDown(c, old(sc), old(host.suppress), net)
    {
      ads := [];
      if sc.state.Backup? {
        sc := sc.(state := Master);
        ads := SendAdLocked(c, net);
        var more := Run(c, AnyFamily, net);
        ads := ads + more;
      }
    }

    /** carp_input_c. An advertisement that is not accepted has another version or
        hash, and counts as none. */
    method Receive(c: Clock, ad: Ad, accepted: bool, net: Net) returns (ads: seq<Ad>)
      requires Valid()
      modifies this, host
      ensures Valid()
      ensures accepted ==> Out(sc, host.suppress, ads) == Input(c, old(sc), old(host.suppress), ad, net)
      ensures !accepted ==> sc == old(sc) && host.suppress == old(host.suppress) && ads == []
    {
      hide SendAd, SetRun, MasterDown;
      ads := [];
      if !(sc.up && sc.running) || !accepted {
        return;
      }
      InputAlive(c, sc, host.suppress, ad, net);
      var own := Interval(sc.cfg.advbase,
                          if host.suppress != 0 && sc.cfg.advskew < 240 then 240 else sc.cfg.advskew);
      var other := Interval(ad.advbase, ad.advskew);
      match sc.state {
        case Init =>
        case Master =>
          if Less(other, own) || other == own {
            sc := sc.(state := Backup, timers := sc.timers.(ad := None));
            ads := Run(c, AnyFamily, net);
          }
        case Backup =>
          if c.preempt && Less(own, other) {
            ads := MasterDownLocked(c, net);
          } else if Less(own.(sec := 3 * sc.cfg.advbase), other) {
            ads := MasterDownLocked(c, net);
          } else {
            ads := Run(c, ad.family, net);
          }
      }
    }

    // The body of carp_send_ad_all's loop.
    method SendAgain(c: Clock, net: Net) returns (ads: seq<Ad>)
      requires Valid()
      modifies this, host
      ensures Valid() && sc.state == old(sc).state && sc.cfg == old(sc).cfg
      ensures Out(sc, host.suppress, ads) == Resend(c, old(sc), old(host.suppress), net)
    {
      hide SendAd;
      ads := [];
      if sc.up && sc.running && sc.state.Master? {
        ResendRevives(c, sc, host.suppress, net);
        ads := SendAdLocked(c, net);
      }
    }

    // The three callouts.
    method AdDue(c: Clock, net: Net) returns (ads: seq<Ad>)
      requires Valid() && sc.timers.ad.Some?
      modifies this, host
      ensures TagsWork(net) ==> Valid()
      ensures Out(sc, host.suppress, ads) == AdTimeout(c, old(sc), old(host.suppress), net)
    {
      AdTimeoutAliveExactly(c, sc, host.suppress, net);
      SendAdEffect(c, sc.(timers := sc.timers.(ad := None)), host.suppress, net);
      sc := sc.(timers := sc.timers.(ad := None));
      ads := SendAdLocked(c, net);
    }

    method MasterDownDue(c: Clock, inet6: bool, net: Net) returns (ads: seq<Ad>)
      requires Valid()
      modifies this, host
      ensures Valid() && (old(sc).state.Backup? && CanRun(old(sc)) ==> sc.state.Master? && sc.running)
      ensures var t := if inet6 then old(sc).timers.(md6 := None) else old(sc).timers.(md := None);
        Out(sc, host.suppress, ads) == MasterDown(c, old(sc).(timers := t), old(host.suppress), net)
    {
      hide SendAd, MasterDown, SetRun;
      sc := sc.(timers := if inet6 then sc.timers.(md6 := None) else sc.timers.(md := None));
      MasterDownAlive(c, sc, host.suppress, net);
      if sc.state.Backup? && CanRun(sc) {
        MasterDownTakesOver(c, sc, host.suppress, net);
      }
      ads := MasterDownLocked(c, net);
    }

    /** carp_sc_state_locked: the parent's link went down or came up. */
    method ParentState(c: Clock, linkUp: bool, net: Net) returns (ads: seq<Ad>)
      requires Sane(sc) && TagsWork(net)
      modifies this, host
      ensures Out(sc, host.suppress, ads) == LinkChange(c, old(sc), old(host.suppress), linkUp, net)
      ensures Valid() && sc.cfg == old(sc).cfg
      ensures sc.suppress == !linkUp
      ensures linkUp ==> sc.up == (old(sc).up || old(sc).backupUp) && sc.backupUp == old(sc).backupUp
      ensures !linkUp ==> !sc.running && !sc.up && sc.state.Init? && sc.timers == IDLE && sc.backupUp == old(sc).up
    {
      hide SendAd;
      if !linkUp {
        sc := sc.(backupUp := sc.up, up := false, running := false, timers := IDLE, state := Init);
        ads := Run(c, AnyFamily, net);
        if !sc.suppress {
          host.suppress := host.suppress + 1;
        }
        sc := sc.(suppress := true);
      } else {
        sc := sc.(up := sc.up || sc.backupUp, state := Init);
        SetRunAliveTags(c, sc, host.suppress, net);
        ads := Run(c, AnyFamily, net);
        if sc.suppress {
          host.suppress := host.suppress - 1;
        }
        sc := sc.(suppress := false);
      }
    }

    /** carp_set_addr and carp_set_addr6 behind SIOCSIFADDR and SIOCAIFADDR.
        `fails`: no usable parent, no memory, or the vhid is taken there. */
    method SetAddr(c: Clock, inet6: bool, unspecified: bool, fails: bool, own: bool, linkUp: bool, net: Net)
      returns (ads: seq<Ad>)
      requires Valid() && TagsWork(net)
      modifies this, host
      ensures Out(sc, host.suppress, ads) ==
        AddAddr(c, old(sc), old(host.suppress), inet6, unspecified, fails, own, linkUp, net)
      ensures Valid()
      ensures var n := if unspecified || fails then 0 else 1;
        && sc.cfg.naddrs == old(sc).cfg.naddrs + (if inet6 then 0 else n)
        && sc.cfg.naddrs6 == old(sc).cfg.naddrs6 + if inet6 then n else 0
    {
      hide SendAd, SetRun;
      ads := [];
      sc := sc.(up := true);
      if unspecified {
        SetRunAliveTags(c, sc, host.suppress, net);
        ads := Run(c, AnyFamily, net);
        return;
      }
      if fails {
        return;
      }
      var cfg := if inet6 then sc.cfg.(ia6 := true, naddrs6 := sc.cfg.naddrs6 + 1)
                 else sc.cfg.(ia := true, naddrs := sc.cfg.naddrs + 1);
      sc := sc.(cfg := if own then cfg.(advskew := 0) else cfg);
      ads := ParentState(c, linkUp, net);
      SetRunAliveTags(c, sc, host.suppress, net);
      var more := Run(c, AnyFamily, net);
      ads := ads + more;
    }

    /** carp_del_addr and carp_del_addr6: with the last address of a family the
        interface goes down and forgets its vhid. */
    method DelAddr(inet6: bool)
      requires Valid() && (if inet6 then sc.cfg.naddrs6 else sc.cfg.naddrs) > 0
      modifies this
      ensures Valid() && sc == RemoveAddr(old(sc), inet6)
      ensures var n := if inet6 then old(sc).cfg.naddrs6 else old(sc).cfg.naddrs;
        && (n == 1 ==> !sc.running && !sc.up && sc.cfg.vhid == -1)
        && (n > 1 ==> sc.running == old(sc).running && sc.state == old(sc).state && sc.timers == old(sc).timers)
    {
      var cfg := if inet6 then sc.cfg.(naddrs6 := sc.cfg.naddrs6 - 1) else sc.cfg.(naddrs := sc.cfg.naddrs - 1);
      sc := sc.(cfg := cfg);
      if (if inet6 then cfg.naddrs6 else cfg.naddrs) == 0 {
        sc := sc.(timers := sc.timers.(ad := None), up := false, running := false, cfg := cfg.(vhid := -1));
      }
    }

    /** SIOCSIFFLAGS; the kernel has stored the new IFF_UP before the call. */
    method SetFlags(c: Clock, up: bool, net: Net) returns (ads: seq<Ad>)
      requires Valid() && TagsWork(net)
      modifies this, host
      ensures Out(sc, host.suppress, ads) == NewFlags(c, old(sc), old(host.suppress), up, net)
      ensures Valid() && sc.cfg == old(sc).cfg
      ensures !up ==> !sc.running && sc.state.Init?
    {
      hide SendAd, SetRun;
      ads := [];
      sc := sc.(up := up);
      if !sc.state.Init? && !up {
        sc := sc.(timers := IDLE);
        if sc.state.Master? {
          SendAdEffect(c, sc, host.suppress, net);
          ads := SendAdLocked(c, net);
        }
        sc := sc.(state := Init);
        DownStops(c, sc, host.suppress, net);
        var more := Run(c, AnyFamily, net);
        ads := ads + more;
      } else if sc.state.Init? && up {
        SetRunAliveTags(c, sc, host.suppress, net);
        ads := Run(c, AnyFamily, net);
      }
    }

    method ForceState(c: Clock, state: State, net: Net) returns (ads: seq<Ad>)
      requires Valid() && TagsWork(net)
      modifies this, host
      ensures Valid()
      ensures Out(sc, host.suppress, ads) == Forced(c, old(sc), old(host.suppress), state, net)
    {
      hide SendAd, SetRun, MasterDown;
      ads := [];
      if !sc.state.Init? && state != sc.state {
        if state.Backup? {
          sc := sc.(timers := sc.timers.(ad := None), state := Backup);
          SetRunAliveTags(c, sc, host.suppress, net);
          ads := Run(c, AnyFamily, net);
        } else if state.Master? {
          MasterDownAlive(c, sc, host.suppress, net);
          ads := MasterDownLocked(c, net);
        }
      }
    }

    /** SIOCSVH: may force a state, then set the vhid and the intervals. `taken`:
        another interface of the parent has the vhid. */
    method SetVh(c: Clock, req: Request, taken: bool, net: Net) returns (ads: seq<Ad>, ok: bool)
      requires Valid() && TagsWork(net)
      modifies this, host
      ensures Out(sc, host.suppress, ads) == NewVh(c, old(sc), old(host.suppress), req, taken, net)
      ensures Valid()
      ensures ok <==> req.vhid <= 255 && !(req.vhid > 0 && taken)
                      && (req.vhid > 0 || req.advbase > 0 || req.advskew > 0)
                      && (req.advbase > 0 || req.advskew > 0 ==> req.advskew < 255 && req.advbase <= 255)
      ensures ok && req.vhid > 0 ==> sc.cfg.vhid == req.vhid
      ensures ok && (req.advbase > 0 || req.advskew > 0) ==>
        sc.cfg.advbase == req.advbase && sc.cfg.advskew == req.advskew
    {
      hide SendAd, SetRun, MasterDown, Forced;
      var error := 1;
      ads := ForceState(c, req.state, net);
      ok := false;
      if req.vhid > 0 {
        if req.vhid > 255 || taken {
          return;
        }
        sc := sc.(cfg := sc.cfg.(vhid := req.vhid));
        error := error - 1;
      }
      if req.advbase > 0 || req.advskew > 0 {
        if req.advskew >= 255 || req.advbase > 255 {
          return;
        }
        sc := sc.(cfg := sc.cfg.(advbase := req.advbase, advskew := req.advskew));
        error := error - 1;
      }
      if error > 0 {
        return;
      }
      SetRunAliveTags(c, sc, host.suppress, net);
      var more := Run(c, AnyFamily, net);
      ads, ok := ads + more, true;
    }
  }
}
