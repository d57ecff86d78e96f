/** pf_get_sport: the search for an outside address and port that no state uses. */
module PortSearch {
  import opened Options
  import opened StateTable
  import opened StateIndexes
  import opened AddressPool
  import opened Nat
  import opened PortLoop

  const IPPROTO_TCP := 6
  const IPPROTO_UDP := 17

  const SPACE2 := 0x1_0000_0000_0000_0000
  const SPACE3 := 0x1_0000_0000_0000_0000_0000_0000

  // An address as the words of its family.
  function ToAddr(af: nat, n: nat): Addr {
    if af == AF_INET then Addr(n, 0, 0, 0)
    else Addr(n / SPACE3, n / SPACE2 % W, n / W % W, n % W)
  }

  // The words are the digits of the number to the base 2^32, and all of IPv4's.
  lemma AddrIsNumber(af: nat, n: nat)
    ensures var a := ToAddr(af, n);
      if af == AF_INET then a == Addr(n, 0, 0, 0)
      else n == a.w0 * SPACE3 + a.w1 * SPACE2 + a.w2 * W + a.w3 && a.w1 < W && a.w2 < W && a.w3 < W
  {
    if af != AF_INET {
      DivDiv(n, W, W, SPACE2);
      DivDiv(n, SPACE2, W, SPACE3);
    }
  }

  lemma DivDiv(n: nat, a: nat, b: nat, ab: nat)
    requires a > 0 && b > 0 && ab == a * b && ab > 0
    ensures n / ab == n / a / b
  {
    var q, r := n / a, n % a;
    var u, v := q / b, q % b;
    Divided(n, a);
    Divided(q, b);
    Regroup(u, v, a, b);
    MulBound(v, a, b, r);
    assert n == u * ab + (v * a + r);
    DivUnique(n, ab, u);
  }

  lemma Divided(n: nat, a: nat)
    requires a > 0
    ensures n == n / a * a + n % a
  {
  }

  lemma Regroup(u: nat, v: nat, a: nat, b: nat)
    ensures (u * b + v) * a == u * (a * b) + v * a
  {
    MulAssoc(u, a, b);
    MulAssoc(u, b, a);
  }

  lemma MulBound(v: nat, a: nat, b: nat, r: nat)
    requires v < b && r < a
    ensures v * a + r < a * b
  {
    MulMonotone(v + 1, b, a);
  }

  /** What is fixed in one search: the packet, and the port range of the rule. */
  datatype Search = Search(af: nat, proto: nat, daddr: Addr, dport: nat, sport: nat, low: Port, high: Port)

  // The key looked up for an address and a port.
  function Key(q: Search, naddr: nat, port: nat): State {
    State(q.proto, q.af, Host(NO_ADDR, 0), Host(q.daddr, q.dport), Host(ToAddr(q.af, naddr), port), 0, 0, 0)
  }

  /** No state of any interface has this outside key. */
  ghost predicate Free(t: Tables, q: Search, naddr: nat, port: nat) {
    forall s :: s in t.updates ==> ExtGwyKey(s) != ExtGwyKey(Key(q, naddr, port))
  }

  predicate HasPorts(q: Search) { q.proto == IPPROTO_TCP || q.proto == IPPROTO_UDP }

  /** The ports tried at each address: without ports the destination's, without a
      range the packet's own, else all in the range, whichever end comes first. */
  predicate Candidate(q: Search, port: nat) {
    if !HasPorts(q) then port == q.dport
    else if q.low == 0 && q.high == 0 then port == q.sport
    else if q.low <= q.high then q.low <= port <= q.high
    else q.high <= port <= q.low
  }

  /** So TCP and UDP packets get a port of the rule's range, ends included and in either
      order, or keep their own where the rule has none; all others stay with their
      destination's. */
  lemma CandidatesExactly(q: Search, port: nat)
    ensures Candidate(q, port) <==>
      if q.proto != 6 && q.proto != 17 then port == q.dport
      else if q.low == q.high == 0 then port == q.sport
      else Least(q.low, q.high) <= port <= q.low + q.high - Least(q.low, q.high)
  {
  }

  function Least(a: int, b: int): int { if a < b then a else b }

  // The packet has ports and the rule more than one to choose from.
  predicate Ranged(q: Search) { HasPorts(q) && q.low != q.high }

  // A place in the range, by a random number.
  function CutOf(low: Port, high: Port, draw: nat): (cut: Port)
    requires low < high
    ensures low <= cut <= high
  {
    draw % (1 + high - low) + low
  }

  // The range in order, with the place where the search starts.
  function RangeOf(q: Search, draw: nat): (r: Range)
    requires Ranged(q)
    ensures InOrder(r)
  {
    var low, high := if q.low <= q.high then q.low else q.high, if q.low <= q.high then q.high else q.low;
    Range(low, high, CutOf(low, high, draw))
  }

  predicate RangeOk(q: Search) { Ranged(q) ==> NoWrap(RangeOf(q, 0)) }

  ghost predicate Full(t: Tables, q: Search, naddr: nat) {
    forall port :: Candidate(q, port) ==> !Free(t, q, naddr, port)
  }

  /** The search at one address comes to an end. */
  ghost predicate Ends(t: Tables, q: Search, naddr: nat) {
    RangeOk(q) || exists port: Port :: Free(t, q, naddr, port)
  }

  // The first port that is free, in the order of the loops.
  ghost predicate FirstFree(t: Tables, q: Search, naddr: nat, r: Range, port: Port) {
    exists n: nat :: FreeAt(t, q, naddr, r, n, port)
  }

  ghost predicate FreeAt(t: Tables, q: Search, naddr: nat, r: Range, n: nat, port: Port) {
    TakenUntil(t, q, naddr, r, n) && !At(r, n).Over? && At(r, n).port == port && Free(t, q, naddr, port)
  }

  ghost predicate TakenUntil(t: Tables, q: Search, naddr: nat, r: Range, n: nat) {
    forall m :: 0 <= m < n ==> !At(r, m).Over? && !Free(t, q, naddr, At(r, m).port)
  }

  /** The two loops leave a table alone in the end if and only if the range touches
      neither end of the port numbers or there is a free port, in the range or not. */
  lemma SearchEndsExactly(t: Tables, q: Search, naddr: nat, draw: nat)
    requires Ranged(q)
    ensures var r := RangeOf(q, draw);
      (exists n: nat :: At(r, n).Over? || Free(t, q, naddr, At(r, n).port)) <==> Ends(t, q, naddr)
  {
    hide Free, At;
    var r := RangeOf(q, draw);
    if NoWrap(r) {
      AtEnd(r);
      assert At(r, r.high - r.low + 1).Over?;
    } else {
      forall n: nat
        ensures !At(r, n).Over?
      {
        NeverOver(r, n);
      }
      if port: Port :| Free(t, q, naddr, port) {
        PlaceOfTries(r, port);
        assert Free(t, q, naddr, At(r, PlaceOf(r, port)).port);
      }
    }
  }

  method IsFree(t: Tables, q: Search, naddr: nat, port: nat) returns (free: bool)
    requires Agree(t)
    ensures free == Free(t, q, naddr, port)
  {
    hide Agree, ExtGwyKey;
    var s, _ := FindAll(t, Key(q, naddr, port), ExtGwy, None);
    free := s.None?;
  }

  // By when the loops have ended: the number of ports, or the place of a free one.
  ghost function Last(t: Tables, q: Search, naddr: nat, r: Range): (n: nat)
    requires InOrder(r) && (NoWrap(r) || exists port: Port :: Free(t, q, naddr, port))
    ensures NoWrap(r) ==> n == r.high - r.low + 1
    ensures !At(r, n).Over? ==> Free(t, q, naddr, At(r, n).port)
  {
    if NoWrap(r) then
      AtEnd(r);
      r.high - r.low + 1
    else
      var port: Port :| Free(t, q, naddr, port);
      PlaceOfTries(r, port);
      PlaceOf(r, port)
  }

  // One more port is taken, and the search is not at its end.
  lemma OneMoreTaken(t: Tables, q: Search, naddr: nat, r: Range, n: nat, last: nat)
    requires InOrder(r) && TakenUntil(t, q, naddr, r, n) && n <= last
    requires !At(r, n).Over? && !Free(t, q, naddr, At(r, n).port)
    requires !At(r, last).Over? ==> Free(t, q, naddr, At(r, last).port)
    ensures TakenUntil(t, q, naddr, r, n + 1) && n < last && At(r, n + 1) == After(r, At(r, n))
  {
    hide Free;
  }

  lemma AllTaken(t: Tables, q: Search, naddr: nat, draw: nat, n: nat)
    requires Ranged(q) && TakenUntil(t, q, naddr, RangeOf(q, draw), n) && At(RangeOf(q, draw), n).Over?
    ensures RangeOk(q) && Full(t, q, naddr)
  {
    hide Free, At;
    var r := RangeOf(q, draw);
    if !NoWrap(r) {
      NeverOver(r, n);
      assert false;
    }
    forall port: nat | Candidate(q, port)
      ensures !Free(t, q, naddr, port)
    {
      EachTried(r, port);
      var m :| 0 <= m <= r.high - r.low && At(r, m) == if port >= r.cut then Up(port) else Down(port);
      if n <= m {
        StaysOver(r, n, m);
      }
    }
  }

  lemma FoundAt(t: Tables, q: Search, naddr: nat, draw: nat, n: nat, port: Port)
    requires Ranged(q) && TakenUntil(t, q, naddr, RangeOf(q, draw), n) && Free(t, q, naddr, port)
    requires At(RangeOf(q, draw), n) == Up(port) || At(RangeOf(q, draw), n) == Down(port)
    requires RangeOk(q) ==> n <= RangeOf(q, draw).high - RangeOf(q, draw).low
    ensures FirstFree(t, q, naddr, RangeOf(q, draw), port) && (RangeOk(q) ==> Candidate(q, port))
  {
    hide Free, At;
    assert FreeAt(t, q, naddr, RangeOf(q, draw), n, port);
    if RangeOk(q) {
      WithinRange(RangeOf(q, draw), n);
    }
  }

  /** The search at one address. None is no port; the port is that of the key. Where
      the variable wraps, the search gives a port wherever there is one. */
  method SearchPorts(t: Tables, q: Search, naddr: nat, draw: nat) returns (r: Option<nat>)
    requires Agree(t) && Ends(t, q, naddr)
    ensures r.Some? ==> Free(t, q, naddr, r.value) && (RangeOk(q) ==> Candidate(q, r.value))
    ensures r.Some? && !HasPorts(q) ==> r.value == q.dport
    ensures r.Some? && Ranged(q) ==> r.value < PORTS && FirstFree(t, q, naddr, RangeOf(q, draw), r.value)
    ensures r.None? ==> RangeOk(q) && Full(t, q, naddr)
  {
    hide Agree, Free, FirstFree, FreeAt;
    if !HasPorts(q) {
      var free := IsFree(t, q, naddr, q.dport);
      return if free then Some(q.dport) else None;
    }
    if q.low == 0 && q.high == 0 {
      var free := IsFree(t, q, naddr, q.sport);
      return if free then Some(q.sport) else None;
    }
    if q.low == q.high {
      var free := IsFree(t, q, naddr, q.low);
      return if free then Some(q.low) else None;
    }
    r := SearchRange(t, q, naddr, draw);
  }

  // The two loops.
  method SearchRange(t: Tables, q: Search, naddr: nat, draw: nat) returns (r: Option<nat>)
    requires Agree(t) && Ranged(q) && Ends(t, q, naddr)
    ensures r.Some? ==> r.value < PORTS && Free(t, q, naddr, r.value) && (RangeOk(q) ==> Candidate(q, r.value))
    ensures r.Some? ==> FirstFree(t, q, naddr, RangeOf(q, draw), r.value)
    ensures r.None? ==> RangeOk(q) && Full(t, q, naddr)
  {
    hide Agree, Free, FirstFree, FreeAt, At, TakenUntil, Full, Candidate, Last, Enter, EnterDown, After, CutOf;
    var low, high: Port := q.low, q.high;
    if low > high {
      low, high := high, low;
    }
    var cut := CutOf(low, high, draw);
    ghost var g := RangeOf(q, draw);
    assert g == Range(low, high, cut);
    ghost var last, n: nat := Last(t, q, naddr, g), 0;
    hide RangeOf, Ranged, RangeOk, Ends, Inc, Dec;
    var tmp: Port := cut;
    assert At(g, 0) == Up(cut) by { AtStart(g); }
    assert TakenUntil(t, q, naddr, g, 0) by { NoneYet(t, q, naddr, g); }
    StepUp(g, tmp);
    while tmp <= high
      invariant n <= last && TakenUntil(t, q, naddr, g, n) && At(g, n) == Enter(g, Up(tmp))
      decreases last - n
    {
      StepUp(g, tmp);
      var free := IsFree(t, q, naddr, tmp);
      if free {
        LastInRange(q, draw, n, last);
        FoundAt(t, q, naddr, draw, n, tmp);
        return Some(tmp);
      }
      OneMoreTaken(t, q, naddr, g, n, last);
      tmp, n := Inc(tmp), n + 1;
    }
    StepUp(g, tmp);
    tmp := Dec(cut);
    while tmp >= low
      invariant n <= last && TakenUntil(t, q, naddr, g, n) && At(g, n) == EnterDown(g, tmp)
      decreases last - n
    {
      StepDown(g, tmp);
      var free := IsFree(t, q, naddr, tmp);
      if free {
        LastInRange(q, draw, n, last);
        FoundAt(t, q, naddr, draw, n, tmp);
        return Some(tmp);
      }
      OneMoreTaken(t, q, naddr, g, n, last);
      tmp, n := Dec(tmp), n + 1;
    }
    StepDown(g, tmp);
    AllTaken(t, q, naddr, draw, n);
    r := None;
  }

  lemma NoneYet(t: Tables, q: Search, naddr: nat, r: Range)
    ensures TakenUntil(t, q, naddr, r, 0)
  {
  }

  // A place that tries a port is not the end.
  lemma LastInRange(q: Search, draw: nat, n: nat, last: nat)
    requires Ranged(q) && n <= last && !At(RangeOf(q, draw), n).Over?
    requires NoWrap(RangeOf(q, draw)) ==> last == RangeOf(q, draw).high - RangeOf(q, draw).low + 1
    ensures RangeOk(q) ==> n <= RangeOf(q, draw).high - RangeOf(q, draw).low
  {
    hide At;
    if NoWrap(RangeOf(q, draw)) {
      AtEnd(RangeOf(q, draw));
    }
  }

  // ------------------------------------------------------ the addresses searched

  // The addresses of a block for the counter values x, x + 1, ..., x + n - 1.
  function RandomRun(b: Block, x: nat, n: nat): (r: seq<nat>)
    requires b.size > 0
    ensures |r| == n && forall i: nat :: i < n ==> r[i] == PoolMask(b, x + i)
  {
    if n == 0 then [] else RandomRun(b, x, n - 1) + [PoolMask(b, x + n - 1)]
  }

  /** The addresses a pool hands out one after the other, until it starts again. */
  function Cycle(p: Config, c: Cursor, saddr: nat, hash: nat, rnd: nat): (r: seq<nat>)
    requires PoolOk(p) && CursorOk(p, c)
    ensures |r| > 0
  {
    match p.kind
    case RoundRobin =>
      NextIsAt(p, c);
      Rotation(All(p.blocks), Pos(p, c))
    case Random => RandomRun(p.blocks[c.cur], rnd % p.space, p.blocks[c.cur].size)
    case _ => [MapAddr(p, c, saddr, hash, Some(0), rnd).0]
  }

  predicate Moves(p: Config) { p.kind.Random? || p.kind.RoundRobin? }

  // The cursor when the k-th address has just been handed out.
  ghost predicate Ahead(p: Config, c0: Cursor, rnd: nat, c: Cursor, k: nat)
    requires PoolOk(p) && CursorOk(p, c0) && CursorOk(p, c)
  {
    && (p.kind.RoundRobin? ==> k < Total(p) && Pos(p, c0) < Total(p) &&
                               Pos(p, c) == Shift(Pos(p, c0), k + 1, Total(p)))
    && (p.kind.Random? ==>
          c.cur == c0.cur && c.counter % p.blocks[c.cur].size == (rnd % p.space + k) % p.blocks[c.cur].size)
  }

  // Position i of a rotation that starts at `from`.
  function Shift(from: nat, i: nat, n: nat): int { if from + i < n then from + i else from + i - n }

  lemma FirstOfCycle(p: Config, c: Cursor, saddr: nat, hash: nat, rnd: nat)
    requires PoolOk(p) && CursorOk(p, c)
    ensures var (a, c1, init) := MapAddr(p, c, saddr, hash, Some(0), rnd);
            && a == Cycle(p, c, saddr, hash, rnd)[0]
            && (Moves(p) ==> init == Some(a)) && (!Moves(p) ==> init == Some(0))
            && Ahead(p, c, rnd, c1, 0)
  {
    hide Pos, All, Pick;
    if p.kind.RoundRobin? {
      NextIsAt(p, c);
    }
  }

  lemma ModMod(x: nat, n: nat, m: nat)
    requires n > 0 && m > 0 && n % m == 0
    ensures (x % n) % m == x % m
  {
    var k := n / m;
    assert n == k * m;
    var q := x / n;
    assert x == q * n + x % n;
    assert x == (q * k) * m + x % n by { MulAssoc(q, k, m); }
    AddMultiple(x % n, q * k, m);
  }

  lemma MulAssoc(a: nat, b: nat, c: nat)
    ensures a * (b * c) == (a * b) * c
  {
  }

  lemma AddMultiple(x: nat, k: nat, m: nat)
    requires m > 0
    ensures (k * m + x) % m == x % m
  {
    var q := x / m;
    assert x == q * m + x % m;
    assert (k + q) * m == k * m + q * m;
    ModUnique(k * m + x, m, k + q, x % m);
  }

  lemma ModUnique(x: nat, m: nat, q: nat, r: nat)
    requires m > 0 && r < m && x == q * m + r
    ensures x % m == r
  {
    DivUnique(x, m, q);
    assert x == (x / m) * m + x % m;
  }

  lemma ModNext(x: nat, y: nat, m: nat)
    requires m > 0 && x % m == y % m
    ensures (x + 1) % m == (y + 1) % m
  {
    var r := x % m + 1;
    assert x + 1 == (x / m) * m + r && y + 1 == (y / m) * m + r;
    AddMultiple(r, x / m, m);
    AddMultiple(r, y / m, m);
  }

  lemma RandomStep(b: Block, space: nat, counter: nat, x: nat)
    requires BlockOk(b, space) && counter % b.size == x % b.size
    ensures ((counter + 1) % space) % b.size == (x + 1) % b.size
  {
    ModMod(counter + 1, space, b.size);
    ModNext(counter, x, b.size);
  }

  /** A further call gives the next address of the cycle, or the first again. */
  lemma NextOfCycle(p: Config, c0: Cursor, saddr: nat, hash: nat, rnd: nat, c: Cursor, k: nat, init: Option<nat>)
    requires PoolOk(p) && CursorOk(p, c0) && CursorOk(p, c) && Moves(p) && Ahead(p, c0, rnd, c, k)
    requires k < |Cycle(p, c0, saddr, hash, rnd)| && init != Some(0)
    ensures var (a, c1, init1) := MapAddr(p, c, saddr, hash, init, rnd);
            var cycle := Cycle(p, c0, saddr, hash, rnd);
            && init1 == init
            && a == cycle[if k + 1 == |cycle| then 0 else k + 1]
            && (k + 1 < |cycle| ==> Ahead(p, c0, rnd, c1, k + 1))
  {
    hide Pos, All, Pick, PoolOk;
    if p.kind.RoundRobin? {
      NextIsAt(p, c);
    } else {
      assert BlockOk(p.blocks[c.cur], p.space) by { OneBlockOk(p, c); }
      NextOfRun(p.blocks[c.cur], p.space, c.counter, rnd % p.space, k);
    }
  }

  lemma OneBlockOk(p: Config, c: Cursor)
    requires PoolOk(p) && CursorOk(p, c)
    ensures BlockOk(p.blocks[c.cur], p.space)
  {
  }

  lemma NextOfRun(b: Block, space: nat, counter: nat, x: nat, k: nat)
    requires BlockOk(b, space) && b.size > 0 && space > 0 && k < b.size && counter % b.size == (x + k) % b.size
    ensures ((counter + 1) % space) % b.size == (x + (k + 1)) % b.size
    ensures PoolMask(b, (counter + 1) % space) == RandomRun(b, x, b.size)[if k + 1 == b.size then 0 else k + 1]
  {
    hide RandomRun, PoolMask, BlockOk;
    RandomStep(b, space, counter, x + k);
    var next := (counter + 1) % space;
    if k + 1 == b.size {
      AddMultiple(x, 1, b.size);
      SameMask(b, next, x);
      assert RandomRun(b, x, b.size)[0] == PoolMask(b, x + 0);
    } else {
      SameMask(b, next, x + (k + 1));
    }
  }

  lemma SameMask(b: Block, x: nat, y: nat)
    requires b.size > 0 && x % b.size == y % b.size
    ensures PoolMask(b, x) == PoolMask(b, y)
  {
  }

  // How many addresses come before the first one comes again.
  function FirstReturn(cycle: seq<nat>, i: nat): (r: nat)
    requires 0 < i <= |cycle|
    ensures i <= r <= |cycle|
    ensures forall j :: i <= j < r ==> cycle[j] != cycle[0]
    ensures r < |cycle| ==> cycle[r] == cycle[0]
    decreases |cycle| - i
  {
    if i == |cycle| || cycle[i] == cycle[0] then i else FirstReturn(cycle, i + 1)
  }

  /** How many addresses the search tries: when the first is the zero address,
      `init_addr` still reads as unset, is set by the second call, and ends the loop. */
  function Tried(cycle: seq<nat>): (r: nat)
    requires |cycle| > 0
    ensures 0 < r <= |cycle|
  {
    if cycle[0] == 0 then 1 else FirstReturn(cycle, 1)
  }

  /** Every port is taken at every address tried. */
  ghost predicate SearchFails(t: Tables, q: Search, addrs: seq<nat>) {
    forall i :: 0 <= i < |addrs| ==> Full(t, q, addrs[i])
  }

  /** The addresses a search tries: the one that the source node holds, and no other, or
      those of the pool's cycle. */
  function Tries(p: Config, c: Cursor, node: Option<nat>, saddr: nat, hash: nat, rnd: nat): (r: seq<nat>)
    requires PoolOk(p) && CursorOk(p, c)
    ensures |r| > 0
  {
    var cycle := Cycle(p, c, saddr, hash, rnd);
    if Remembers(p, node) then [node.value] else cycle[..Tried(cycle)]
  }

  predicate InPool(p: Config, a: nat) { exists k :: 0 <= k < |p.blocks| && Inside(p.blocks[k], a) }

  /** No search leaves the pool: what it tries is the remembered address, or addresses of
      the pool's blocks. */
  lemma TriesStayInPool(p: Config, c: Cursor, node: Option<nat>, saddr: nat, hash: nat, rnd: nat, a: nat)
    requires PoolOk(p) && CursorOk(p, c) && a in Tries(p, c, node, saddr, hash, rnd)
    ensures Some(a) == node || InPool(p, a)
  {
    hide Pos, All, MapAddr, PoolMask, BlockOk;
    if !Remembers(p, node) {
      assert a in Cycle(p, c, saddr, hash, rnd);
      match p.kind
      case RoundRobin =>
        NextIsAt(p, c);
        assert All(p.blocks) == All(p.blocks)[..Pos(p, c)] + All(p.blocks)[Pos(p, c)..];
        AllInSomeBlock(p.blocks, a);
        var k :| 0 <= k < |p.blocks| && p.blocks[k].addr <= a < p.blocks[k].addr + p.blocks[k].size;
        assert Inside(p.blocks[k], a);
      case Random =>
        OneBlockOk(p, c);
        assert p.blocks[c.cur].size > 0 by { BlockNotEmpty(p.blocks[c.cur], p.space); }
        var run := RandomRun(p.blocks[c.cur], rnd % p.space, p.blocks[c.cur].size);
        var i :| 0 <= i < |run| && run[i] == a;
        PoolMaskExactly(p.blocks[c.cur], p.space, rnd % p.space + i);
        assert Inside(p.blocks[c.cur], a);
      case _ =>
        AddressGiven(p, c, saddr, hash, Some(0), rnd);
    }
  }

  lemma BlockNotEmpty(b: Block, space: nat)
    requires BlockOk(b, space)
    ensures b.size > 0 && space > 0
  {
  }

  /** pf_get_sport; `node` is the address that the source node of a sticky pool holds. It
      fails exactly when every port is taken at every address tried; a success gives one
      of these addresses and a port of the range that no state of any interface has as
      its outside key. If the port variable wraps it gives the first free port of all at
      the first address. A search at a remembered address that fails moves the pool on,
      and remembers an address it has not tried. */
  method GetSport(pool: Pool, t: Tables, q: Search, node: Option<nat>, saddr: nat, hash: nat, rnd: nat,
                  draw: nat -> nat)
    returns (r: Option<(nat, nat)>, node': Option<nat>)
    requires pool.Valid() && Agree(t)
    requires Ends(t, q, Tries(pool.config, Cursor(pool.cur, pool.counter), node, saddr, hash, rnd)[0])
    modifies pool
    ensures pool.Valid()
    ensures r.Some? ==>
              r.value.0 in Tries(pool.config, old(Cursor(pool.cur, pool.counter)), node, saddr, hash, rnd)
    ensures r.Some? ==> Some(r.value.0) == node || InPool(pool.config, r.value.0)
    ensures r.Some? && HasPorts(q) ==> Free(t, q, r.value.0, r.value.1) && (RangeOk(q) ==> Candidate(q, r.value.1))
    ensures r.Some? && !HasPorts(q) ==> r.value.1 == q.sport && Free(t, q, r.value.0, q.dport)
    ensures r.None? <==>
      RangeOk(q) && SearchFails(t, q, Tries(pool.config, old(Cursor(pool.cur, pool.counter)), node, saddr, hash, rnd))
    ensures !RangeOk(q) ==>
              var a := Tries(pool.config, old(Cursor(pool.cur, pool.counter)), node, saddr, hash, rnd)[0];
              r.Some? && r.value.1 < PORTS && r.value.0 == a && FirstFree(t, q, a, RangeOf(q, draw(0)), r.value.1)
    ensures Remembers(pool.config, node) && (r.Some? || !Moves(pool.config)) ==>
              node' == node && Cursor(pool.cur, pool.counter) == old(Cursor(pool.cur, pool.counter))
    ensures Remembers(pool.config, node) && r.None? && Moves(pool.config) ==>
              var m := MapAddr(pool.config, old(Cursor(pool.cur, pool.counter)), saddr, hash, Some(0), rnd);
              node' == Some(m.0) && Cursor(pool.cur, pool.counter) == m.1
    ensures !Remembers(pool.config, node) && node.Some? && !pool.config.kind.PlainAddr? && r.Some? ==>
              node' == Some(r.value.0)
    ensures node'.Some? <==> node.Some?
  {
    hide Agree, Full, Free, FirstFree, Candidate, Cycle, MapAddr, Ahead, RangeOf;
    ghost var c0 := Cursor(pool.cur, pool.counter);
    ghost var cycle := Cycle(pool.config, c0, saddr, hash, rnd);
    ghost var held := Remembers(pool.config, node);
    FirstOfCycle(pool.config, c0, saddr, hash, rnd);
    var naddr, init;
    naddr, init, node' := pool.NextFor(node, false, saddr, hash, Some(0), rnd);
    var k := 0;
    while true
      invariant pool.Valid() && (node'.Some? <==> node.Some?)
      invariant held ==>
        k == 0 && Some(naddr) == node == node' && init == Some(0) && Cursor(pool.cur, pool.counter) == c0
      invariant !held ==>
        && k < |cycle| && k < Tried(cycle) && naddr == cycle[k]
        && Ahead(pool.config, c0, rnd, Cursor(pool.cur, pool.counter), k)
        && init == if Moves(pool.config) then Some(cycle[0]) else Some(0)
      invariant !held && node.Some? && !pool.config.kind.PlainAddr? ==> node' == Some(naddr)
      invariant !held ==> forall i :: 0 <= i < k ==> Full(t, q, cycle[i])
      invariant if k == 0 then Ends(t, q, naddr) else RangeOk(q)
      decreases |cycle| - k
    {
      var port := SearchPorts(t, q, naddr, draw(k));
      if port.Some? {
        if RangeOk(q) {
          FreeIsNotFull(t, q, naddr, port.value);
        }
        TriesStayInPool(pool.config, c0, node, saddr, hash, rnd, naddr);
        return Some((naddr, if HasPorts(q) then port.value else q.sport)), node';
      }
      if pool.config.kind.PlainAddr? || pool.config.kind.SrcHash? || pool.config.kind.Bitmask? {
        FixedCycle(pool.config, c0, saddr, hash, rnd);
        return None, node';
      }
      ghost var c := Cursor(pool.cur, pool.counter);
      if !held && cycle[0] != 0 {
        NextOfCycle(pool.config, c0, saddr, hash, rnd, c, k, init);
      } else {
        RestartEnds(pool.config, c, saddr, hash, rnd);
      }
      naddr, init, node' := pool.NextFor(node', true, saddr, hash, init, rnd);
      if Some(naddr) == init {
        return None, node';
      }
      k := k + 1;
    }
  }

  lemma FreeIsNotFull(t: Tables, q: Search, naddr: nat, port: nat)
    requires Candidate(q, port) && Free(t, q, naddr, port)
    ensures !Full(t, q, naddr)
  {
  }

  lemma FixedCycle(p: Config, c: Cursor, saddr: nat, hash: nat, rnd: nat)
    requires PoolOk(p) && CursorOk(p, c) && !Moves(p)
    ensures |Cycle(p, c, saddr, hash, rnd)| == 1
  {
  }

  // With `init_addr` unset a moving pool sets it to what it hands out.
  lemma RestartEnds(p: Config, c: Cursor, saddr: nat, hash: nat, rnd: nat)
    requires PoolOk(p) && CursorOk(p, c) && Moves(p)
    ensures var (a, _, init) := MapAddr(p, c, saddr, hash, Some(0), rnd); init == Some(a)
  {
    hide Pick;
  }

  // Counter values less than a block apart give different addresses.
  lemma MasksDiffer(b: Block, x: nat, i: nat, j: nat)
    requires 0 <= i < j < b.size && b.addr % b.size == 0
    ensures PoolMask(b, x + i) != PoolMask(b, x + j)
  {
    var m := b.size;
    var q := (x + i) / m;
    var r := (x + i) % m;
    assert x + i == q * m + r;
    if r + (j - i) < m {
      AddMultiple(r + (j - i), q, m);
      NextDiffers(r + (j - i), m);
    } else {
      AddMultiple(r + (j - i) - m, q + 1, m);
      assert (q + 1) * m == q * m + m;
      NextDiffers(r + (j - i) - m, m);
    }
  }

  lemma NextDiffers(r: nat, m: nat)
    requires r < m
    ensures r % m == r
  {
  }

  /** The cycle names every address of the pool (of the current block, for a random
      pool) once, if the blocks do not overlap. */
  lemma CycleCoversPool(p: Config, c: Cursor, saddr: nat, hash: nat, rnd: nat)
    requires PoolOk(p) && CursorOk(p, c) && Disjoint(p)
    ensures var cycle := Cycle(p, c, saddr, hash, rnd);
            && EachOnce(cycle)
            && (p.kind.RoundRobin? ==> multiset(cycle) == multiset(All(p.blocks)))
            && (p.kind.Random? ==> |cycle| == p.blocks[c.cur].size)
  {
    hide Pos, All, Pick, PoolMask;
    if p.kind.RoundRobin? {
      NextIsAt(p, c);
      DisjointEachOnce(p);
      RotationEachOnce(All(p.blocks), Pos(p, c));
      assert All(p.blocks) == All(p.blocks)[..Pos(p, c)] + All(p.blocks)[Pos(p, c)..];
    } else if p.kind.Random? {
      var b := p.blocks[c.cur];
      assert BlockOk(b, p.space);
      var run := RandomRun(b, rnd % p.space, b.size);
      forall i: nat, j: nat | i < j < |run|
        ensures run[i] != run[j]
      {
        MasksDiffer(b, rnd % p.space, i, j);
      }
    }
  }

  /** All addresses of a cycle without repetition are tried if and only if the first
      is not the zero address, or is the only one. */
  lemma AllTriedExactly(cycle: seq<nat>)
    requires |cycle| > 0 && EachOnce(cycle)
    ensures Tried(cycle) == |cycle| <==> cycle[0] != 0 || |cycle| == 1
  {
  }

  /** If a search fails all of the pool is taken. */
  ghost predicate FailureIsExhaustion(tried: seq<nat>, cycle: seq<nat>) {
    forall t: Tables, q: Search, i | Agree(t) && RangeOk(q) && 0 <= i < |cycle| && SearchFails(t, q, tried) ::
      Full(t, q, cycle[i])
  }

  // A search for a port of a range, and a table in which one port of one address is
  // taken.
  function SearchOf(low: Port, high: Port): Search {
    Search(AF_INET, IPPROTO_TCP, NO_ADDR, 80, 1024, low, high)
  }

  function TakenState(a: nat, port: Port): State {
    State(IPPROTO_TCP, AF_INET, Host(NO_ADDR, 1024), Host(NO_ADDR, 80), Host(ToAddr(AF_INET, a), port), 0, 0, 0)
  }

  function TakenAt(a: nat, port: Port): Tables { Insert(Empty(1), 0, TakenState(a, port)).1 }

  lemma OnlyOneIsTaken(a: nat, taken: Port, low: Port, high: Port, naddr: nat, port: nat)
    ensures Agree(TakenAt(a, taken))
    ensures Free(TakenAt(a, taken), SearchOf(low, high), naddr, port) <==> naddr != a || port != taken
  {
    hide Agree, ExtGwyKey, LanExtKey, IdKey;
    var t, q, s := TakenAt(a, taken), SearchOf(low, high), TakenState(a, taken);
    EmptyAgrees(1);
    InsertRefused(Empty(1), 0, s);
    InsertAgrees(Empty(1), 0, s);
    var u := Identified(Empty(1), s.(kif := 0));
    assert t.updates == [u];
    ExtGwyTotalOrder(u, Key(q, naddr, port), u);
  }

  // A search for port 5000.
  const ONE := SearchOf(5000, 5000)

  lemma OnlyThatIsTaken(a: nat, naddr: nat)
    ensures Agree(TakenAt(a, 5000))
    ensures Full(TakenAt(a, 5000), ONE, naddr) <==> naddr == a
  {
    hide Agree, Free, TakenAt;
    OnlyOneIsTaken(a, 5000, 5000, 5000, naddr, 5000);
    assert Candidate(ONE, 5000) && forall port :: Candidate(ONE, port) ==> port == 5000;
  }

  /** A search for 65534:65535 that starts at 65535 finds that taken and gives port 0,
      though 65534 is free. */
  lemma WrapLeavesRange()
    ensures var t, q := TakenAt(0, 65535), SearchOf(65534, 65535);
      && Agree(t) && Ends(t, q, 0) && RangeOf(q, 1).cut == 65535 && FirstFree(t, q, 0, RangeOf(q, 1), 0)
      && !Candidate(q, 0) && Candidate(q, 65534) && Free(t, q, 0, 65534)
  {
    hide Agree, Free, TakenAt, At;
    var t, q := TakenAt(0, 65535), SearchOf(65534, 65535);
    OnlyOneIsTaken(0, 65535, 65534, 65535, 0, 65535);
    OnlyOneIsTaken(0, 65535, 65534, 65535, 0, 65534);
    OnlyOneIsTaken(0, 65535, 65534, 65535, 0, 0);
    AtUp(RangeOf(q, 1), 0);
    AtUp(RangeOf(q, 1), 1);
    assert FreeAt(t, q, 0, RangeOf(q, 1), 1, 0);
  }

  /** A failed search has exhausted a pool without repetition, whatever the table, if
      and only if the pool does not begin with the zero address, or has no other. */
  lemma FailureIsExhaustionExactly(cycle: seq<nat>)
    requires |cycle| > 0 && EachOnce(cycle)
    ensures FailureIsExhaustion(cycle[..Tried(cycle)], cycle) <==> cycle[0] != 0 || |cycle| == 1
  {
    hide Full, Agree;
    AllTriedExactly(cycle);
    var tried := cycle[..Tried(cycle)];
    if cycle[0] == 0 && |cycle| > 1 {
      OnlyThatIsTaken(0, 0);
      OnlyThatIsTaken(0, cycle[1]);
      assert SearchFails(TakenAt(0, 5000), ONE, tried) && RangeOk(ONE);
      assert !Full(TakenAt(0, 5000), ONE, cycle[1]);
    } else {
      assert tried == cycle;
    }
  }

  /** With a remembered address it has if and only if the pool has no other. */
  lemma StickyFailureIsExhaustionExactly(a: nat, cycle: seq<nat>)
    ensures FailureIsExhaustion([a], cycle) <==> forall i :: 0 <= i < |cycle| ==> cycle[i] == a
  {
    hide Full, Agree;
    if i :| 0 <= i < |cycle| && cycle[i] != a {
      OnlyThatIsTaken(a, a);
      OnlyThatIsTaken(a, cycle[i]);
      assert SearchFails(TakenAt(a, 5000), ONE, [a]) && RangeOk(ONE);
      assert !Full(TakenAt(a, 5000), ONE, cycle[i]);
    } else {
      forall t: Tables, q: Search | SearchFails(t, q, [a])
        ensures Full(t, q, a)
      {
        assert [a][0] == a;
      }
    }
  }

  /** A pool 0.0.0.0/31 whose turn is at its first address, and a table in which the
      port wanted is free at the second: the search fails all the same. */
  lemma ZeroFirstStopsSearch()
    ensures var p := Config(RoundRobin, [Block(0, 2)], W);
            && PoolOk(p) && CursorOk(p, Cursor(0, 0))
            && Cycle(p, Cursor(0, 0), 0, 0, 0) == [0, 1]
            && Tries(p, Cursor(0, 0), None, 0, 0, 0) == [0]
            && Agree(TakenAt(0, 5000)) && SearchFails(TakenAt(0, 5000), ONE, [0]) && !Full(TakenAt(0, 5000), ONE, 1)
  {
    hide Full, Agree;
    var b := Block(0, 2);
    var p := Config(RoundRobin, [b], W);
    assert AddressesOf(b) == [0, 1];
    assert p.blocks[..0] == [] && [b][..0] == [];
    assert All([b]) == All([]) + AddressesOf(b);
    assert Pos(p, Cursor(0, 0)) == 0;
    OnlyThatIsTaken(0, 0);
    OnlyThatIsTaken(0, 1);
    assert Tried([0, 1]) == 1;
  }

  /** A state made for the address and port found meets no refusal from the outside
      tree of any interface. */
  lemma FoundKeyGoesIn(t: Tables, q: Search, p: Packet, naddr: nat, port: nat, kif: nat)
    requires Agree(t) && Free(t, q, naddr, port)
    requires p.af == q.af && p.proto == q.proto && p.dst == Host(q.daddr, q.dport)
    ensures (kif, ExtGwyKey(NewState(Out, p, Some(Host(ToAddr(q.af, naddr), port))))) !in t.extGwy
  {
    hide ExtGwyKey, LanExtKey, IdKey, HeadOk;
    var n := NewState(Out, p, Some(Host(ToAddr(q.af, naddr), port)));
    ExtGwyTotalOrder(n, Key(q, naddr, port), n);
  }
}
