/** All CARP interfaces of one host: what their carp_suppress_preempt stands for. */
module CarpHost {
  import opened Options
  import opened Carp

  /** What an interface adds to the count: one while its link is down, and one while its
      advertisements fail, from the third failure in a row to the third success. */
  function Share(sc: Softc): nat {
    (if sc.suppress then 1 else 0) + if sc.tally.errors >= 3 then 1 else 0
  }

  // The count changes by what the interface's share changes.
  ghost predicate Keeps(sc: Softc, sup: int, o: Out) { o.sup - Share(o.sc) == sup - Share(sc) }

  lemma NoteKeeps(t: Tally, ok: bool)
    ensures var (t1, more) := NoteSend(t, ok);
      more == (if t1.errors >= 3 then 1 else 0) - if t.errors >= 3 then 1 else 0
  {
  }

  lemma CopyKeeps(c: Clock, o: Out, ad: Ad, copy: Copy)
    ensures Keeps(o.sc, o.sup, SendCopy(c, o, ad, copy))
  {
    if copy.Handed? {
      NoteKeeps(o.sc.tally, copy.ok);
    }
  }

  lemma SendKeeps(c: Clock, sc: Softc, sup: int, net: Net)
    ensures Keeps(sc, sup, SendAd(c, sc, sup, net))
  {
    hide SendCopy;
    var base, skew := AdvBase(sc), AdvSkew(sc, sup);
    CopyKeeps(c, Out(sc, sup, []), Ad(Inet, base, skew), Copy4(sc.cfg, net));
    var o4 := SendCopy(c, Out(sc, sup, []), Ad(Inet, base, skew), Copy4(sc.cfg, net));
    CopyKeeps(c, o4, Ad(Inet6, base, skew), Copy6(sc.cfg, net));
  }

  lemma RunKeeps(c: Clock, sc: Softc, sup: int, af: Family, net: Net)
    ensures Keeps(sc, sup, SetRun(c, sc, sup, af, net))
  {
    hide SendAd;
    SendKeeps(c, sc.(running := true), sup, net);
  }

  lemma MasterDownKeeps(c: Clock, sc: Softc, sup: int, net: Net)
    ensures Keeps(sc, sup, MasterDown(c, sc, sup, net))
  {
    hide SendAd, SetRun;
    SendKeeps(c, sc.(state := Master), sup, net);
    var o := SendAd(c, sc.(state := Master), sup, net);
    RunKeeps(c, o.sc, o.sup, AnyFamily, net);
  }

  lemma InputKeeps(c: Clock, sc: Softc, sup: int, ad: Ad, net: Net)
    ensures Keeps(sc, sup, Input(c, sc, sup, ad, net))
  {
    hide MasterDown, SetRun;
    MasterDownKeeps(c, sc, sup, net);
    RunKeeps(c, sc, sup, ad.family, net);
    RunKeeps(c, sc.(state := Backup, timers := sc.timers.(ad := None)), sup, AnyFamily, net);
  }

  lemma LinkKeeps(c: Clock, sc: Softc, sup: int, linkUp: bool, net: Net)
    ensures Keeps(sc, sup, LinkChange(c, sc, sup, linkUp, net))
  {
    hide SetRun;
    RunKeeps(c, sc.(up := sc.up || sc.backupUp, state := Init), sup, AnyFamily, net);
  }

  lemma AddrKeeps(c: Clock, sc: Softc, sup: int, inet6: bool, unspecified: bool, fails: bool, own: bool,
                  linkUp: bool, net: Net)
    ensures Keeps(sc, sup, AddAddr(c, sc, sup, inet6, unspecified, fails, own, linkUp, net))
  {
    hide SetRun, LinkChange;
    var up := sc.(up := true);
    RunKeeps(c, up, sup, AnyFamily, net);
    var cfg := if inet6 then up.cfg.(ia6 := true, naddrs6 := up.cfg.naddrs6 + 1)
               else up.cfg.(ia := true, naddrs := up.cfg.naddrs + 1);
    var sc1 := up.(cfg := if own then cfg.(advskew := 0) else cfg);
    LinkKeeps(c, sc1, sup, linkUp, net);
    var o := LinkChange(c, sc1, sup, linkUp, net);
    RunKeeps(c, o.sc, o.sup, AnyFamily, net);
  }

  lemma FlagsKeeps(c: Clock, sc: Softc, sup: int, up: bool, net: Net)
    ensures Keeps(sc, sup, NewFlags(c, sc, sup, up, net))
  {
    hide SetRun, SendAd;
    SendKeeps(c, sc.(up := up, timers := IDLE), sup, net);
    RunKeeps(c, sc.(up := up), sup, AnyFamily, net);
  }

  lemma VhKeeps(c: Clock, sc: Softc, sup: int, req: Request, taken: bool, net: Net)
    ensures Keeps(sc, sup, NewVh(c, sc, sup, req, taken, net))
  {
    hide SetRun, MasterDown;
    MasterDownKeeps(c, sc, sup, net);
    RunKeeps(c, sc.(timers := sc.timers.(ad := None), state := Backup), sup, AnyFamily, net);
    var o := Forced(c, sc, sup, req.state, net);
    assert Keeps(sc, sup, o);
    var cfg := if req.vhid > 0 then o.sc.cfg.(vhid := req.vhid) else o.sc.cfg;
    RunKeeps(c, o.sc.(cfg := WithIntervals(cfg, req)), o.sup, AnyFamily, net);
  }

  lemma HandlerKeeps(c: Clock, sc: Softc, sup: int, e: Event, net: Net)
    requires CanHappen(sc, e)
    ensures Keeps(sc, sup, Handle(c, sc, sup, e, net))
  {
    hide Input, SendAd, MasterDown, LinkChange, AddAddr, NewFlags, NewVh, Keeps;
    match e
    case Heard(ad) => InputKeeps(c, sc, sup, ad, net);
    case AdDue =>
      SendKeeps(c, sc.(timers := sc.timers.(ad := None)), sup, net);
      SameShare(sc, sc.(timers := sc.timers.(ad := None)), sup, AdTimeout(c, sc, sup, net));
    case MasterDownDue(inet6) =>
      var sc1 := sc.(timers := if inet6 then sc.timers.(md6 := None) else sc.timers.(md := None));
      MasterDownKeeps(c, sc1, sup, net);
      SameShare(sc, sc1, sup, MasterDown(c, sc1, sup, net));
    case Link(up) => LinkKeeps(c, sc, sup, up, net);
    case NewAddr(inet6, unspecified, fails, own, linkUp) =>
      AddrKeeps(c, sc, sup, inet6, unspecified, fails, own, linkUp, net);
    case DelAddr(inet6) => SameShare(sc, RemoveAddr(sc, inet6), sup, Out(sc, sup, []));
    case Flags(up) => FlagsKeeps(c, sc, sup, up, net);
    case Vh(req, taken) => VhKeeps(c, sc, sup, req, taken, net);
    case SendAll =>
      SendKeeps(c, sc, sup, net);
      SameShare(sc, sc, sup, Out(sc, sup, []));
  }

  lemma SameShare(sc: Softc, sc1: Softc, sup: int, o: Out)
    requires sc1.suppress == sc.suppress && sc1.tally == sc.tally
    ensures Keeps(sc, sup, o) <==> Keeps(sc1, sup, o)
    ensures Keeps(sc, sup, Out(sc1, sup, []))
  {
  }

  // ------------------------------------------------------------------ the host

  datatype World = World(scs: seq<Softc>, sup: int)

  /** An interface is created, is destroyed, or something happens to it. */
  datatype Happening =
    | Created
    | Destroyed(i: nat)
    | Handled(i: nat, c: Clock, e: Event, net: Net)

  predicate Possible(w: World, h: Happening) {
    match h
    case Created => true
    case Destroyed(i) => i < |w.scs|
    case Handled(i, _, e, _) => i < |w.scs| && CanHappen(w.scs[i], e)
  }

  // carp_clone_destroy takes back what the lost link has added, and no more.
  function Step(w: World, h: Happening): World
    requires Possible(w, h)
  {
    match h
    case Created => World(w.scs + [FRESH], w.sup)
    case Destroyed(i) => World(w.scs[..i] + w.scs[i + 1..], if w.scs[i].suppress then w.sup - 1 else w.sup)
    case Handled(i, c, e, net) =>
      var o := Handle(c, w.scs[i], w.sup, e, net);
      World(w.scs[i := o.sc], o.sup)
  }

  ghost predicate IsRun(w: World, run: seq<Happening>)
    decreases |run|
  {
    run == [] || (Possible(w, run[0]) && IsRun(Step(w, run[0]), run[1..]))
  }

  function RunAll(w: World, run: seq<Happening>): World
    requires IsRun(w, run)
    decreases |run|
  {
    if run == [] then w else RunAll(Step(w, run[0]), run[1..])
  }

  function Shares(scs: seq<Softc>): nat {
    if scs == [] then 0 else Share(scs[0]) + Shares(scs[1..])
  }

  lemma {:induction false} SharesConcat(a: seq<Softc>, b: seq<Softc>)
    ensures Shares(a + b) == Shares(a) + Shares(b)
  {
    hide Share;
    if a == [] {
      assert a + b == b;
    } else {
      assert (a + b)[1..] == a[1..] + b;
      SharesConcat(a[1..], b);
    }
  }

  lemma SharesSplit(scs: seq<Softc>, i: nat, mid: seq<Softc>)
    requires i < |scs|
    ensures Shares(scs[..i] + mid + scs[i + 1..]) == Shares(scs) - Share(scs[i]) + Shares(mid)
  {
    hide Share;
    assert scs == scs[..i] + ([scs[i]] + scs[i + 1..]);
    SharesConcat(scs[..i], [scs[i]] + scs[i + 1..]);
    SharesConcat([scs[i]], scs[i + 1..]);
    assert scs[..i] + mid + scs[i + 1..] == scs[..i] + (mid + scs[i + 1..]);
    SharesConcat(scs[..i], mid + scs[i + 1..]);
    SharesConcat(mid, scs[i + 1..]);
    assert Shares([scs[i]]) == Share(scs[i]) by { OneShare(scs[i]); }
  }

  lemma OneShare(sc: Softc)
    ensures Shares([sc]) == Share(sc)
  {
    assert [sc][1..] == [];
  }

  lemma {:induction false} NoShares(scs: seq<Softc>)
    ensures Shares(scs) == 0 <==> forall k :: 0 <= k < |scs| ==> !scs[k].suppress && scs[k].tally.errors < 3
  {
    if scs != [] {
      NoShares(scs[1..]);
      assert forall k :: 0 < k < |scs| ==> scs[k] == scs[1..][k - 1];
    }
  }

  // How many interfaces a run destroys while they fail to send.
  function Left(w: World, run: seq<Happening>): nat
    requires IsRun(w, run)
    decreases |run|
  {
    if run == [] then 0
    else
      (if run[0].Destroyed? && w.scs[run[0].i].tally.errors >= 3 then 1 else 0) + Left(Step(w, run[0]), run[1..])
  }

  lemma StepShares(w: World, h: Happening)
    requires Possible(w, h)
    ensures var w1 := Step(w, h);
      w1.sup - Shares(w1.scs) == w.sup - Shares(w.scs) +
        if h.Destroyed? && w.scs[h.i].tally.errors >= 3 then 1 else 0
  {
    hide Handle, CanHappen, Shares;
    match h
    case Created =>
      SharesConcat(w.scs, [FRESH]);
      OneShare(FRESH);
    case Destroyed(i) =>
      SharesSplit(w.scs, i, []);
      assert w.scs[..i] + [] + w.scs[i + 1..] == w.scs[..i] + w.scs[i + 1..];
      NoShares([]);
    case Handled(i, c, e, net) =>
      var o := Handle(c, w.scs[i], w.sup, e, net);
      HandlerKeeps(c, w.scs[i], w.sup, e, net);
      SharesSplit(w.scs, i, [o.sc]);
      OneShare(o.sc);
      assert w.scs[..i] + [o.sc] + w.scs[i + 1..] == w.scs[i := o.sc];
  }

  /** Over every run of whatever happens to the interfaces of a host, preemption is
      suppressed by as much as there are lost links and failing senders, and one more
      for each interface that was destroyed while it failed to send. */
  lemma {:induction false} SuppressedBy(w: World, run: seq<Happening>)
    requires IsRun(w, run)
    ensures var w1 := RunAll(w, run); w1.sup - Shares(w1.scs) == w.sup - Shares(w.scs) + Left(w, run)
    decreases |run|
  {
    hide Step, Possible, Shares;
    if run != [] {
      StepShares(w, run[0]);
      SuppressedBy(Step(w, run[0]), run[1..]);
    }
  }

  /** From a host without interfaces on, preemption is suppressed exactly while some
      interface has lost its link or fails to send -- in every run in which no interface
      is destroyed while it fails to send; after one that is, it stays suppressed for
      good, whatever happens then. */
  lemma SuppressedExactly(w: World, run: seq<Happening>)
    requires w.scs == [] && w.sup == 0 && IsRun(w, run)
    ensures var w1 := RunAll(w, run);
      && w1.sup >= 0
      && (Left(w, run) == 0 ==>
            (w1.sup == 0 <==> forall k :: 0 <= k < |w1.scs| ==> !w1.scs[k].suppress && w1.scs[k].tally.errors < 3))
      && (Left(w, run) > 0 ==> w1.sup > 0)
  {
    hide IsRun, RunAll, Left;
    SuppressedBy(w, run);
    NoShares(w.scs);
    NoShares(RunAll(w, run).scs);
  }

  // ------------------------------------------------------------ the count that stays

  const UNSENT := Net(true, true, false, true, true, false)

  function Whenever(t: Timeval): int { 1 }

  function At(e: Event): Happening { Handled(0, Clock(0, Whenever, false), e, UNSENT) }

  // An interface with an IPv4 address whose advertisements all fail, as master.
  function Failing(errors: nat): Softc {
    Softc(Master, true, true, Config(1, 1, 0, 1, 0, true, false), Callouts(Some(1), None, None),
          Tally(errors, 0), false, false)
  }

  lemma OneMoreFailure(errors: nat, sup: int)
    requires errors < 3
    ensures Handle(Clock(0, Whenever, false), Failing(errors), sup, AdDue, UNSENT)
         == Out(Failing(errors + 1), if errors == 2 then sup + 1 else sup, [])
  {
  }

  /** A master that fails to send three times and is then destroyed: no interface is
      left, and the host does not preempt any more. */
  lemma DestroyedWhileFailing(w: World)
    requires w.scs == [Failing(0)] && w.sup == 0
    ensures var run := [At(AdDue), At(AdDue), At(AdDue), Destroyed(0)];
      IsRun(w, run) && RunAll(w, run) == World([], 1)
  {
    hide Handle;
    OneMoreFailure(0, 0);
    OneMoreFailure(1, 0);
    OneMoreFailure(2, 0);
    var run := [At(AdDue), At(AdDue), At(AdDue), Destroyed(0)];
    var w1 := World([Failing(1)], 0);
    var w2 := World([Failing(2)], 0);
    var w3 := World([Failing(3)], 1);
    assert Step(w, run[0]) == w1 && Step(w1, run[1]) == w2 && Step(w2, run[2]) == w3;
    assert Step(w3, run[3]) == World([], 1);
    assert IsRun(w3, run[3..]) && RunAll(w3, run[3..]) == World([], 1);
    assert IsRun(w2, run[2..]) && RunAll(w2, run[2..]) == World([], 1);
    assert IsRun(w1, run[1..]) && RunAll(w1, run[1..]) == World([], 1);
  }
}
