/** What the handlers of a CARP interface do for whoever configures it: counting sends,
    losing the link and getting it back, addresses, flags, and SIOCSVH. */
module CarpHandlers {
  import opened Options
  import opened Carp

  // ------------------------------------------------------------ failing to send

  // The tally after a row of output calls.
  function TallyOf(calls: seq<bool>): Tally {
    if calls == [] then Tally(0, 0) else NoteSend(TallyOf(calls[..|calls| - 1]), calls[|calls| - 1]).0
  }

  // How many calls at the end went like `ok`.
  function Trailing(calls: seq<bool>, ok: bool): nat {
    if calls == [] || calls[|calls| - 1] != ok then 0 else 1 + Trailing(calls[..|calls| - 1], ok)
  }

  /** An interface fails to send from three failures in a row to three successes in a
      row. */
  predicate Failing(calls: seq<bool>) {
    var n := |calls|;
    if n < 3 then false
    else if calls[n - 3] == calls[n - 2] == calls[n - 1] then !calls[n - 1]
    else Failing(calls[..n - 1])
  }

  lemma {:induction false} TallyIs(calls: seq<bool>)
    ensures var t := TallyOf(calls);
      && (t.errors >= 3 <==> Failing(calls))
      && (!Failing(calls) ==> t.errors == Trailing(calls, false))
      && (Failing(calls) ==> t.success == Trailing(calls, true) < 3)
  {
    if calls != [] {
      var n, rest := |calls|, calls[..|calls| - 1];
      TallyIs(rest);
      TrailingEnd(calls);
    }
  }

  // Three at the end, or fewer.
  lemma TrailingEnd(calls: seq<bool>)
    requires calls != []
    ensures var n, ok := |calls|, calls[|calls| - 1];
      && Trailing(calls, ok) == 1 + Trailing(calls[..n - 1], ok) && Trailing(calls, !ok) == 0
      && (Trailing(calls, ok) >= 3 <==> n >= 3 && calls[n - 3] == calls[n - 2] == calls[n - 1])
  {
    var n, ok := |calls|, calls[|calls| - 1];
    var a := calls[..n - 1];
    if n >= 2 && a[n - 2] == ok {
      var b := a[..n - 2];
      assert Trailing(a, ok) == 1 + Trailing(b, ok);
      if n >= 3 && b[n - 3] == ok {
        assert Trailing(b, ok) == 1 + Trailing(b[..n - 3], ok);
      }
    }
  }

  /** The tally says that an interface fails exactly from three failures in a row to
      three successes in a row, and only the calls that begin and end such a time change
      carp_suppress_preempt, by one. */
  lemma FailsFromThreeToThree(calls: seq<bool>, ok: bool)
    ensures TallyOf(calls).errors >= CARP_SENDAD_MAX_ERRORS <==> Failing(calls)
    ensures NoteSend(TallyOf(calls), ok).1 ==
      (if Failing(calls + [ok]) then 1 else 0) - (if Failing(calls) then 1 else 0)
  {
    TallyIs(calls);
    TallyIs(calls + [ok]);
    assert (calls + [ok])[..|calls|] == calls;
  }

  // ------------------------------------------------------------------- the link

  /** A lost link stops the interface and all its callouts. */
  lemma LinkLost(c: Clock, sc: Softc, sup: int, net: Net)
    ensures var o := LinkChange(c, sc, sup, false, net);
      && !o.sc.up && !o.sc.running && o.sc.state == Init && o.sc.timers == IDLE && o.sc.suppress
      && o.sc.cfg == sc.cfg && o.sc.tally == sc.tally && o.ads == []
  {
  }

  /** When it comes back the interface is up again if and only if it was before, runs if
      and only if it can, and counts no longer against preemption. */
  lemma LinkBack(c: Clock, sc: Softc, sup: int, net: Net, c1: Clock, sup1: int, net1: Net)
    ensures var down := LinkChange(c, sc, sup, false, net).sc;
      var o := LinkChange(c1, down, sup1, true, net1).sc;
      && o.up == sc.up && o.cfg == sc.cfg && !o.suppress
      && (o.running <==> sc.up && sc.cfg.vhid > 0 && sc.cfg.naddrs + sc.cfg.naddrs6 > 0)
      && (o.running ==> o.state in {Backup, Master})
  {
    hide SendAd;
    var down := LinkChange(c, sc, sup, false, net).sc;
    var back := down.(up := down.up || down.backupUp, state := Init);
    RunsExactly(c1, back, sup1, AnyFamily, net1);
    SetRunKeepsSetup(c1, back, sup1, AnyFamily, net1);
  }

  lemma SetRunKeepsSetup(c: Clock, sc: Softc, sup: int, af: Family, net: Net)
    ensures SameSetup(SetRun(c, sc, sup, af, net).sc, sc)
  {
    hide SendAd;
    SendAdKeepsSetup(c, sc.(running := true), sup, net);
  }

  lemma SendAdKeepsSetup(c: Clock, sc: Softc, sup: int, net: Net)
    ensures SameSetup(SendAd(c, sc, sup, net).sc, sc)
  {
    hide SendCopy;
    var base, skew := AdvBase(sc), AdvSkew(sc, sup);
    SendCopyEffect(c, Out(sc, sup, []), Ad(Inet, base, skew), Copy4(sc.cfg, net));
    var o4 := SendCopy(c, Out(sc, sup, []), Ad(Inet, base, skew), Copy4(sc.cfg, net));
    SendCopyEffect(c, o4, Ad(Inet6, base, skew), Copy6(sc.cfg, net));
  }

  // ------------------------------------------------------------------- addresses

  lemma UpAfterLink(c: Clock, sc: Softc, sup: int, linkUp: bool, net: Net)
    requires sc.up
    ensures var o := LinkChange(c, sc, sup, linkUp, net).sc; o.up == linkUp && o.cfg == sc.cfg && o.suppress == !linkUp
  {
    hide SetRun;
    SetRunKeepsSetup(c, sc.(state := Init), sup, AnyFamily, net);
  }

  // The link's change and the carp_setrun after it.
  lemma RunAfterLink(c: Clock, sc: Softc, sup: int, linkUp: bool, net: Net)
    requires sc.up
    ensures var o := LinkChange(c, sc, sup, linkUp, net);
      var p := SetRun(c, o.sc, o.sup, AnyFamily, net).sc;
      && p.up == linkUp && p.cfg == sc.cfg && p.suppress == !linkUp
      && (p.running <==> linkUp && sc.cfg.vhid > 0 && sc.cfg.naddrs + sc.cfg.naddrs6 > 0)
  {
    hide SendAd, SetRun, LinkChange;
    var o := LinkChange(c, sc, sup, linkUp, net);
    UpAfterLink(c, sc, sup, linkUp, net);
    RunsExactly(c, o.sc, o.sup, AnyFamily, net);
    SetRunKeepsSetup(c, o.sc, o.sup, AnyFamily, net);
  }

  /** A new address counts in its family, for which there is now something to advertise;
      an address that is also the parent's makes the skew 0. The interface is up with its
      parent's link, and runs exactly if it then has a vhid. */
  lemma AddressAdded(c: Clock, sc: Softc, sup: int, inet6: bool, own: bool, linkUp: bool, net: Net)
    ensures var o := AddAddr(c, sc, sup, inet6, false, false, own, linkUp, net).sc;
      var skew := if own then 0 else sc.cfg.advskew;
      && o.cfg == (if inet6 then sc.cfg.(naddrs6 := sc.cfg.naddrs6 + 1, ia6 := true, advskew := skew)
                   else sc.cfg.(naddrs := sc.cfg.naddrs + 1, ia := true, advskew := skew))
      && o.up == linkUp && o.suppress == !linkUp && (o.running <==> linkUp && sc.cfg.vhid > 0)
  {
    hide SendAd, SetRun, LinkChange;
    var cfg := if inet6 then sc.cfg.(ia6 := true, naddrs6 := sc.cfg.naddrs6 + 1)
               else sc.cfg.(ia := true, naddrs := sc.cfg.naddrs + 1);
    var sc1 := sc.(up := true).(cfg := if own then cfg.(advskew := 0) else cfg);
    RunAfterLink(c, sc1, sup, linkUp, net);
  }

  /** One that cannot be set only brings the interface up; so does an unspecified one,
      upon which the interface runs if it can. */
  lemma AddressNotAdded(c: Clock, sc: Softc, sup: int, inet6: bool, unspecified: bool, fails: bool, own: bool,
                        linkUp: bool, net: Net)
    requires unspecified || fails
    ensures var o := AddAddr(c, sc, sup, inet6, unspecified, fails, own, linkUp, net).sc;
      && o.up && o.cfg == sc.cfg
      && (unspecified ==> (o.running <==> sc.cfg.vhid > 0 && sc.cfg.naddrs + sc.cfg.naddrs6 > 0))
      && (!unspecified ==> o == sc.(up := true))
  {
    hide SendAd, SetRun, LinkChange;
    RunsExactly(c, sc.(up := true), sup, AnyFamily, net);
    SetRunKeepsSetup(c, sc.(up := true), sup, AnyFamily, net);
  }

  /** Without one of several addresses of a family all goes on; without the last one the
      interface is down, has no vhid, and advertises no more. */
  lemma AddressRemoved(sc: Softc, inet6: bool)
    requires if inet6 then sc.cfg.naddrs6 > 0 else sc.cfg.naddrs > 0
    ensures var r := RemoveAddr(sc, inet6);
      var last := (if inet6 then sc.cfg.naddrs6 else sc.cfg.naddrs) == 1;
      && r.cfg.naddrs == (if inet6 then sc.cfg.naddrs else sc.cfg.naddrs - 1)
      && r.cfg.naddrs6 == (if inet6 then sc.cfg.naddrs6 - 1 else sc.cfg.naddrs6)
      && r.cfg == sc.cfg.(naddrs := r.cfg.naddrs, naddrs6 := r.cfg.naddrs6, vhid := if last then -1 else sc.cfg.vhid)
      && (last ==> !r.up && !r.running && r.timers == sc.timers.(ad := None))
      && (!last ==> r.up == sc.up && r.running == sc.running && r.timers == sc.timers)
      && r.state == sc.state && r.tally == sc.tally && r.suppress == sc.suppress && r.backupUp == sc.backupUp
  {
  }

  // ----------------------------------------------------------------------- flags

  // Where there is an address and nothing fails, one advertisement of 255 and 255.
  function BowOut(cfg: Config): seq<Ad> {
    (if cfg.ia then [Ad(Inet, 255, 255)] else []) + if cfg.ia6 then [Ad(Inet6, 255, 255)] else []
  }

  /** Taken down, an interface that was not in INIT stops with all its callouts, and a
      master says so: if nothing fails, by an advertisement that any other is below. */
  lemma TakenDown(c: Clock, sc: Softc, sup: int, net: Net)
    requires sc.state != Init
    ensures var o := NewFlags(c, sc, sup, false, net);
      && !o.sc.up && !o.sc.running && o.sc.state == Init && o.sc.timers == IDLE && o.sc.cfg == sc.cfg
      && (sc.state == Backup ==> o.ads == [] && o.sup == sup)
      && (sc.state == Master && net == Net(true, true, true, true, true, true) ==> o.ads == BowOut(sc.cfg))
  {
    var down := sc.(up := false, timers := IDLE);
    SentExactly(c, down, sup, net);
    BowingOutIsUnarmed(c, down, sup, net);
  }

  lemma BowingOutIsUnarmed(c: Clock, sc: Softc, sup: int, net: Net)
    requires !sc.up
    ensures SendAd(c, sc, sup, net).sc.timers == sc.timers && SendAd(c, sc, sup, net).sc.cfg == sc.cfg
    ensures !SendAd(c, sc, sup, net).sc.up
  {
    hide NoteSend;
  }

  /** Brought up from INIT it runs if it can; otherwise only the flag changes. */
  lemma BroughtUp(c: Clock, sc: Softc, sup: int, up: bool, net: Net)
    requires up || sc.state == Init
    ensures var o := NewFlags(c, sc, sup, up, net);
      && o.sc.up == up && o.sc.cfg == sc.cfg
      && (up && sc.state == Init ==>
            (o.sc.running <==> sc.cfg.vhid > 0 && sc.cfg.naddrs + sc.cfg.naddrs6 > 0))
      && (!(up && sc.state == Init) ==> o == Out(sc.(up := up), sup, []))
  {
    hide SendAd, SetRun;
    RunsExactly(c, sc.(up := up), sup, AnyFamily, net);
    SetRunKeepsSetup(c, sc.(up := up), sup, AnyFamily, net);
  }

  // --------------------------------------------------------------------- SIOCSVH

  /** SIOCSVH. A vhid from 1 to 255 that no other interface of the parent has is taken;
      after that, but not if there was one that is not, intervals are, if one is positive
      and they are in range. A state that is asked for is taken even if all else fails,
      unless the interface is in INIT. If all is well and there was anything to set, the
      interface then runs exactly if it can. */
  lemma VhSet(c: Clock, sc: Softc, sup: int, req: Request, taken: bool, net: Net)
    ensures var o := NewVh(c, sc, sup, req, taken, net).sc;
      var named := req.vhid > 0;
      var bad := named && (req.vhid > 255 || taken);
      var timed := req.advbase > 0 || req.advskew > 0;
      var inRange := req.advskew <= 254 && req.advbase <= 255;
      var fit := timed && inRange && !bad;
      && o.cfg == sc.cfg.(vhid := if named && !bad then req.vhid else sc.cfg.vhid,
                          advbase := if fit then req.advbase else sc.cfg.advbase,
                          advskew := if fit then req.advskew else sc.cfg.advskew)
      && o.up == sc.up
      && (sc.state != Init ==> o.state == if req.state != Init then req.state else sc.state)
      && (!bad && (named || timed) && (timed ==> inRange) ==>
            (o.running <==> sc.up && o.cfg.vhid > 0 && sc.cfg.naddrs + sc.cfg.naddrs6 > 0))
      && (sc.state == Init && (bad || !(named || timed) || (timed && !inRange)) ==>
            o == sc.(cfg := o.cfg))
  {
    hide SendAd, SetRun, Forced;
    ForcedIs(c, sc, sup, req.state, net);
    var o := Forced(c, sc, sup, req.state, net);
    var cfg := if req.vhid > 0 then o.sc.cfg.(vhid := req.vhid) else o.sc.cfg;
    var next := o.sc.(cfg := WithIntervals(cfg, req));
    RunsExactly(c, next, o.sup, AnyFamily, net);
    SetRunKeepsSetup(c, next, o.sup, AnyFamily, net);
    StateKept(c, next, o.sup, net);
  }

  // Where there is an address and nothing fails, one advertisement of the interval.
  function Announce(cfg: Config): seq<Ad> {
    (if cfg.ia then [Ad(Inet, cfg.advbase, cfg.advskew)] else []) +
    if cfg.ia6 then [Ad(Inet6, cfg.advbase, cfg.advskew)] else []
  }

  /** If nothing fails and nothing is suppressed, SIOCSVH of an interface in INIT that
      becomes master by it advertises what it has set; if it does not it is silent. */
  lemma VhAnnounces(c: Clock, sc: Softc, req: Request, taken: bool)
    requires sc.state == Init
    ensures var o := NewVh(c, sc, 0, req, taken, Net(true, true, true, true, true, true));
      o.ads == if o.sc.state == Master then Announce(o.sc.cfg) else []
  {
    hide SendAd, SetRun, Forced;
    var net := Net(true, true, true, true, true, true);
    ForcedIs(c, sc, 0, req.state, net);
    var cfg := if req.vhid > 0 then sc.cfg.(vhid := req.vhid) else sc.cfg;
    var next := sc.(cfg := WithIntervals(cfg, req));
    RunsExactly(c, next, 0, AnyFamily, net);
    SetRunKeepsSetup(c, next, 0, AnyFamily, net);
    SentExactly(c, next.(running := true), 0, net);
  }

  // carp_setrun changes no state but INIT.
  lemma StateKept(c: Clock, sc: Softc, sup: int, net: Net)
    ensures sc.state != Init ==> SetRun(c, sc, sup, AnyFamily, net).sc.state == sc.state
  {
  }

  lemma ForcedIs(c: Clock, sc: Softc, sup: int, state: State, net: Net)
    ensures var o := Forced(c, sc, sup, state, net);
      && SameSetup(o.sc, sc)
      && (sc.state == Init || state == Init || state == sc.state ==> o == Out(sc, sup, []))
      && (sc.state != Init && state != Init ==> o.sc.state == state)
  {
    hide SendAd, SetRun;
    var down := sc.(timers := sc.timers.(ad := None), state := Backup);
    SetRunKeepsSetup(c, down, sup, AnyFamily, net);
    StateKept(c, down, sup, net);
    if sc.state == Backup {
      var o := SendAd(c, sc.(state := Master), sup, net);
      SendAdKeepsSetup(c, sc.(state := Master), sup, net);
      SendAdKeepsRunning(c, sc.(state := Master), sup, net);
      SetRunKeepsSetup(c, o.sc, o.sup, AnyFamily, net);
      StateKept(c, o.sc, o.sup, net);
    }
  }
}
