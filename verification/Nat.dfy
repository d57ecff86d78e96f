/** Network address translation by states: the state a translated packet leaves
    behind, and how it rewrites the packets that match it afterwards. */
module Nat {
  import opened Options
  import opened StateTable
  import opened StateIndexes

  datatype Direction = In | Out

  datatype Packet = Packet(af: nat, proto: nat, src: Host, dst: Host)

  function Swap(p: Packet): Packet { p.(src := p.dst, dst := p.src) }

  // PF_ACPY: the words of the family are copied.
  function CopyAddr(to: Addr, from: Addr, af: nat): Addr {
    if af == AF_INET then to.(w0 := from.w0) else if af == AF_INET6 then from else to
  }

  // What pf_change_ap makes of a host.
  function ChangeAp(h: Host, to: Host, af: nat): Host { Host(CopyAddr(h.addr, to.addr, af), to.port) }

  const NO_ADDR := Addr(0, 0, 0, 0)

  // A host copied into a fresh state.
  function Stored(h: Host, af: nat): Host { Host(CopyAddr(NO_ADDR, h.addr, af), h.port) }

  /** The keys of the state for packet `p`, as it was before translation, when
      translation `to` was found for its source (outbound) or destination (inbound). */
  function NewState(dir: Direction, p: Packet, to: Option<Host>): State {
    match dir
    case Out =>
      var gwy := Stored(if to.Some? then ChangeAp(p.src, to.value, p.af) else p.src, p.af);
      var lan := if to.Some? then Stored(p.src, p.af) else gwy;
      State(p.proto, p.af, lan, Stored(p.dst, p.af), gwy, 0, 0, 0)
    case In =>
      var lan := Stored(if to.Some? then ChangeAp(p.dst, to.value, p.af) else p.dst, p.af);
      var gwy := if to.Some? then Stored(p.dst, p.af) else lan;
      State(p.proto, p.af, lan, Stored(p.src, p.af), gwy, 0, 0, 0)
  }

  // The key pf_test_state_tcp and pf_test_state_udp look up.
  function KeyOf(dir: Direction, p: Packet): State {
    match dir
    case In => State(p.proto, p.af, Host(NO_ADDR, 0), p.src, p.dst, 0, 0, 0)
    case Out => State(p.proto, p.af, p.src, p.dst, Host(NO_ADDR, 0), 0, 0, 0)
  }

  // STATE_TRANSLATE
  predicate Translates(s: State) {
    || s.lan.addr.w0 != s.gwy.addr.w0
    || (s.af == AF_INET6 &&
        (s.lan.addr.w1 != s.gwy.addr.w1 || s.lan.addr.w2 != s.gwy.addr.w2 || s.lan.addr.w3 != s.gwy.addr.w3))
    || s.lan.port != s.gwy.port
  }

  function Rewrite(dir: Direction, s: State, p: Packet): Packet {
    if !Translates(s) then p
    else
      match dir
      case Out => p.(src := ChangeAp(p.src, s.gwy, p.af))
      case In => p.(dst := ChangeAp(p.dst, s.lan, p.af))
  }

  function WhichTree(dir: Direction): Which { if dir.In? then ExtGwy else LanExt }

  // The packet after it has matched a state; None when it matches none.
  function Forwarded(t: Tables, kifs: seq<nat>, dir: Direction, p: Packet): Option<Packet> {
    var s := FirstHit(t, kifs, KeyOf(dir, p), WhichTree(dir));
    if s.None? then None else Some(Rewrite(dir, s.value, p))
  }

  method TestState(t: Tables, kifs: seq<nat>, dir: Direction, p: Packet) returns (r: Option<Packet>)
    requires Agree(t)
    ensures r == Forwarded(t, kifs, dir, p)
  {
    var key := KeyOf(dir, p);
    var s := FindRecurse(t, kifs, key, WhichTree(dir));
    if s.None? {
      return None;
    }
    var q := p;
    if Translates(s.value) {
      if dir.Out? {
        q := q.(src := ChangeAp(q.src, s.value.gwy, q.af));
      } else {
        q := q.(dst := ChangeAp(q.dst, s.value.lan, q.af));
      }
    }
    r := Some(q);
  }

  // Equal as far as the family's words go.
  predicate SamePacket(p: Packet, q: Packet) {
    p.af == q.af && p.proto == q.proto && SameHost(p.af, p.src, q.src) && SameHost(p.af, p.dst, q.dst)
  }

  ghost predicate OneInterface(t: Tables, kif: nat) { forall s :: s in t.updates ==> s.kif == kif }

  /** No two states of one interface share an outside key, or an inside key. */
  lemma KeysAreUnique(t: Tables, a: State, b: State)
    requires Agree(t) && a in t.updates && b in t.updates && a.kif == b.kif
    ensures SameHosts(a, b, a.ext, b.ext, a.gwy, b.gwy) ==> a == b
    ensures SameHosts(a, b, a.lan, b.lan, a.ext, b.ext) ==> a == b
  {
  }

  predicate Matches(dir: Direction, s: State, p: Packet) {
    && s.proto == p.proto && s.af == p.af
    && (dir.Out? ==> SameHost(p.af, s.lan, p.src) && SameHost(p.af, s.ext, p.dst))
    && (dir.In? ==> SameHost(p.af, s.ext, p.src) && SameHost(p.af, s.gwy, p.dst))
  }

  lemma MatchesExactly(dir: Direction, s: State, p: Packet)
    ensures KeyIn(WhichTree(dir), s) == KeyIn(WhichTree(dir), KeyOf(dir, p)) <==> Matches(dir, s, p)
  {
    hide ExtGwyKey, LanExtKey;
    var k := KeyOf(dir, p);
    if dir.Out? {
      LanExtTotalOrder(s, k, s);
    } else {
      ExtGwyTotalOrder(s, k, s);
    }
  }

  /** A packet that matches a live state is rewritten by it. */
  lemma LiveStateRewrites(t: Tables, kif: nat, kifs: seq<nat>, dir: Direction, s: State, p: Packet)
    requires Agree(t) && OneInterface(t, kif) && kif in kifs
    requires s in t.updates && Matches(dir, s, p)
    ensures FirstHit(t, kifs, KeyOf(dir, p), WhichTree(dir)) == Some(s)
    ensures Forwarded(t, kifs, dir, p) == Some(Rewrite(dir, s, p))
  {
    hide Agree, KeyIn, FirstHit, Rewrite;
    FirstHitExactly(t, kifs, KeyOf(dir, p), WhichTree(dir));
    MatchesExactly(dir, s, p);
    var r := FirstHit(t, kifs, KeyOf(dir, p), WhichTree(dir));
    MatchesExactly(dir, r.value, p);
    KeysAreUnique(t, r.value, s);
  }

  lemma RewriteAndBack(dir: Direction, s: State, p: Packet)
    requires Matches(dir, s, p)
    ensures var back := if dir.Out? then In else Out;
            && Matches(back, s, Swap(Rewrite(dir, s, p)))
            && SamePacket(Rewrite(back, s, Swap(Rewrite(dir, s, p))), Swap(p))
  {
  }

  /** NAT is invertible: with the states in one interface, translate a packet that
      matches a state, swap its ends and translate it the other way: it is the
      original packet, swapped. */
  lemma NatInverts(t: Tables, kif: nat, kifs: seq<nat>, dir: Direction, p: Packet)
    requires Agree(t) && OneInterface(t, kif) && kif in kifs
    requires Forwarded(t, kifs, dir, p).Some?
    ensures var back := if dir.Out? then In else Out;
            var reply := Forwarded(t, kifs, back, Swap(Forwarded(t, kifs, dir, p).value));
            reply.Some? && SamePacket(reply.value, Swap(p))
  {
    hide Agree, KeyIn, FirstHit, Rewrite, Matches;
    var s := FirstHit(t, kifs, KeyOf(dir, p), WhichTree(dir)).value;
    FirstHitExactly(t, kifs, KeyOf(dir, p), WhichTree(dir));
    MatchesExactly(dir, s, p);
    RewriteAndBack(dir, s, p);
    LiveStateRewrites(t, kif, kifs, if dir.Out? then In else Out, s, Swap(Rewrite(dir, s, p)));
  }

  // pf_insert_state is to give it an id and its interface.
  lemma NewStateHasNoId(dir: Direction, p: Packet, to: Option<Host>)
    ensures NoId(NewState(dir, p, to))
  {
  }

  lemma NewStateMatches(dir: Direction, p: Packet, to: Option<Host>, s: State)
    requires var n := NewState(dir, p, to);
             s.proto == n.proto && s.af == n.af && s.lan == n.lan && s.ext == n.ext && s.gwy == n.gwy
    ensures dir.Out? ==> Matches(Out, s, p)
    ensures dir.In? ==> Matches(In, s, p)
    ensures to.Some? && dir.Out? ==> SamePacket(Rewrite(Out, s, p), p.(src := ChangeAp(p.src, to.value, p.af)))
    ensures to.Some? && dir.In? ==> SamePacket(Rewrite(In, s, p), p.(dst := ChangeAp(p.dst, to.value, p.af)))
  {
  }

  /** The state of a packet without translation has the same host inside and outside, and
      rewrites no packet in either direction. */
  lemma UntranslatedPasses(dir: Direction, p: Packet, s: State, dir': Direction, q: Packet)
    requires var n := NewState(dir, p, None); s.af == n.af && s.lan == n.lan && s.gwy == n.gwy
    ensures s.lan == s.gwy && Rewrite(dir', s, q) == q
  {
  }

  /** A flow that has just got a translation keeps it, in whatever table its state is
      still live: later packets get the same translation, and replies are mapped back. */
  lemma FlowKeepsTranslation(t: Tables, kif: nat, kifs: seq<nat>, dir: Direction, p: Packet, to: Host, later: Tables)
    requires Agree(t) && Insert(t, kif, NewState(dir, p, Some(to))).0
    requires Agree(later) && OneInterface(later, kif) && kif in kifs
    requires Insert(t, kif, NewState(dir, p, Some(to))).1.updates[0] in later.updates
    ensures var q := Forwarded(later, kifs, dir, p);
            && q.Some?
            && SamePacket(q.value, if dir.Out? then p.(src := ChangeAp(p.src, to, p.af))
                                   else p.(dst := ChangeAp(p.dst, to, p.af)))
            && var reply := Forwarded(later, kifs, if dir.Out? then In else Out, Swap(q.value));
               reply.Some? && SamePacket(reply.value, Swap(p))
  {
    hide Agree, KeyIn, FirstHit, Rewrite, Matches, Forwarded, LanExtKey, ExtGwyKey, IdKey, SamePacket;
    var n := NewState(dir, p, Some(to));
    InsertAgrees(t, kif, n);
    var s := Insert(t, kif, n).1.updates[0];
    assert s == Identified(t, n.(kif := kif));
    NewStateMatches(dir, p, Some(to), s);
    LiveStateRewrites(later, kif, kifs, dir, s, p);
    NatInverts(later, kif, kifs, dir, p);
  }
}
