/** Translation pools: the increment of an address and the choice of the next one. */
module AddressPool {
  import opened Options
  import opened StateTable

  // ------------------------------------------------------------------- increment

  const W := 0x1_0000_0000
  const SPACE6 := 0x1_0000_0000_0000_0000_0000_0000_0000_0000

  // htonl and ntohl on a little-endian host.
  function Swap32(x: nat): (r: nat)
    requires x < W
    ensures r < W
  {
    var x1 := x / 0x100;
    var x2 := x1 / 0x100;
    (x % 0x100) * 0x100_0000 + (x1 % 0x100) * 0x1_0000 + (x2 % 0x100) * 0x100 + x2 / 0x100
  }

  lemma Swap32Twice(x: nat)
    requires x < W
    ensures Swap32(Swap32(x)) == x
    ensures Swap32(x) == W - 1 <==> x == W - 1
    ensures Swap32(0) == 0
  {
    var x1 := x / 0x100;
    var x2 := x1 / 0x100;
    var a, b, c, d := x % 0x100, x1 % 0x100, x2 % 0x100, x2 / 0x100;
    SwapBytes(a, b, c, d);
    SwapBytes(d, c, b, a);
  }

  lemma SwapBytes(a: nat, b: nat, c: nat, d: nat)
    requires a < 0x100 && b < 0x100 && c < 0x100 && d < 0x100
    ensures var x := a + 0x100 * (b + 0x100 * (c + 0x100 * d));
            x < W && Swap32(x) == d + 0x100 * (c + 0x100 * (b + 0x100 * a))
  {
    LastByte(a, b + 0x100 * (c + 0x100 * d));
    LastByte(b, c + 0x100 * d);
    LastByte(c, d);
  }

  lemma LastByte(a: nat, rest: nat)
    requires a < 0x100
    ensures (a + 0x100 * rest) % 0x100 == a && (a + 0x100 * rest) / 0x100 == rest
  {
  }

  predicate Words(a: seq<nat>) { |a| == 4 && forall i :: 0 <= i < 4 ==> a[i] < W }

  function Quad(s0: nat, s1: nat, s2: nat, s3: nat): nat {
    s0 * 0x1_0000_0000_0000_0000_0000_0000 + s1 * 0x1_0000_0000_0000_0000 + s2 * 0x1_0000_0000 + s3
  }

  // The number that an address in network byte order stands for.
  function Value(af: nat, a: seq<nat>): nat
    requires Words(a)
  {
    if af == AF_INET then Swap32(a[0]) else Quad(Swap32(a[0]), Swap32(a[1]), Swap32(a[2]), Swap32(a[3]))
  }

  function Space(af: nat): nat { if af == AF_INET then W else SPACE6 }

  // Adding one modulo n.
  lemma NextMod(x: nat, n: nat)
    requires x < n
    ensures (x + 1) % n == if x + 1 == n then 0 else x + 1
  {
  }

  lemma QuadIncrement(s0: nat, s1: nat, s2: nat, s3: nat)
    requires s0 < W && s1 < W && s2 < W && s3 < W
    ensures (Quad(s0, s1, s2, s3) + 1) % SPACE6 ==
              if s3 < W - 1 then Quad(s0, s1, s2, s3 + 1)
              else if s2 < W - 1 then Quad(s0, s1, s2 + 1, 0)
              else if s1 < W - 1 then Quad(s0, s1 + 1, 0, 0)
              else Quad((s0 + 1) % W, 0, 0, 0)
  {
    NextMod(Quad(s0, s1, s2, s3), SPACE6);
    NextMod(s0, W);
  }

  // One more in a word of network byte order.
  function Bumped(x: nat): (r: nat)
    requires x < W
    ensures r < W && Swap32(r) == (Swap32(x) + 1) % W
  {
    Swap32Twice((Swap32(x) + 1) % W);
    Swap32((Swap32(x) + 1) % W)
  }

  // Where the carry stops.
  function Stepped(af: nat, a: seq<nat>): (r: seq<nat>)
    requires Words(a)
    ensures Words(r)
  {
    if af == AF_INET then a[0 := Bumped(a[0])]
    else if a[3] != W - 1 then a[3 := Bumped(a[3])]
    else if a[2] != W - 1 then [a[0], a[1], Bumped(a[2]), 0]
    else if a[1] != W - 1 then [a[0], Bumped(a[1]), 0, 0]
    else [Bumped(a[0]), 0, 0, 0]
  }

  lemma SteppedValue(af: nat, a: seq<nat>)
    requires Words(a) && (af == AF_INET || af == AF_INET6)
    ensures Value(af, Stepped(af, a)) == (Value(af, a) + 1) % Space(af)
    ensures af == AF_INET ==> Stepped(af, a)[1..] == a[1..]
  {
    hide Swap32, Quad;
    if af == AF_INET6 {
      Swap32Twice(a[3]);
      Swap32Twice(a[2]);
      Swap32Twice(a[1]);
      QuadIncrement(Swap32(a[0]), Swap32(a[1]), Swap32(a[2]), Swap32(a[3]));
    }
  }

  /** pf_addr_inc adds one, modulo the size of the address space. */
  method AddrInc(a: array<nat>, af: nat)
    requires Words(a[..]) && (af == AF_INET || af == AF_INET6)
    modifies a
    ensures Words(a[..])
    ensures Value(af, a[..]) == (Value(af, old(a[..])) + 1) % Space(af)
    ensures af == AF_INET ==> a[1..] == old(a[1..])
  {
    hide Swap32, Quad, Bumped, Value;
    SteppedValue(af, a[..]);
    if af == AF_INET {
      Bump(a, 0);
    } else if a[3] == 0xffff_ffff {
      a[3] := 0;
      if a[2] == 0xffff_ffff {
        a[2] := 0;
        if a[1] == 0xffff_ffff {
          a[1] := 0;
          Bump(a, 0);
        } else {
          Bump(a, 1);
        }
      } else {
        Bump(a, 2);
      }
    } else {
      Bump(a, 3);
    }
    assert a[..] == Stepped(af, old(a[..]));
  }

  // a[i] = htonl(ntohl(a[i]) + 1)
  method Bump(a: array<nat>, i: nat)
    requires Words(a[..]) && i < 4
    modifies a
    ensures Words(a[..]) && a[..] == old(a[..])[i := Bumped(old(a[i]))]
  {
    hide Swap32;
    a[i] := Swap32((Swap32(a[i]) + 1) % W);
  }

  // ------------------------------------------------------------------------ pools

  /** An address and its mask, as the number of addresses under the mask. */
  datatype Block = Block(addr: nat, size: nat)

  datatype Kind = PlainAddr | Bitmask | Random | SrcHash | RoundRobin

  datatype Config = Config(kind: Kind, blocks: seq<Block>, space: nat)

  // rpool.cur and rpool.counter
  datatype Cursor = Cursor(cur: nat, counter: nat)

  /** Network-aligned blocks, none of them the whole address space. */
  predicate BlockOk(b: Block, space: nat) {
    0 < b.size < space && space % b.size == 0 && b.addr % b.size == 0 && b.addr + b.size <= space
  }

  predicate PoolOk(p: Config) {
    |p.blocks| > 0 && forall k :: 0 <= k < |p.blocks| ==> BlockOk(p.blocks[k], p.space)
  }

  predicate CursorOk(p: Config, c: Cursor) { c.cur < |p.blocks| && c.counter < p.space }

  // PF_POOLMASK: network part of the block, host part of `x`.
  function PoolMask(b: Block, x: nat): nat
    requires b.size > 0
  {
    b.addr - b.addr % b.size + x % b.size
  }

  // What the masking is for: an address of the block with the host part of `x`.
  lemma PoolMaskExactly(b: Block, space: nat, x: nat)
    requires BlockOk(b, space)
    ensures b.addr <= PoolMask(b, x) < b.addr + b.size
    ensures PoolMask(b, x) % b.size == x % b.size
  {
    var q := b.addr / b.size;
    assert b.addr == q * b.size;
    DivUnique(PoolMask(b, x), b.size, q);
  }

  // pf_match_addr: equal network parts.
  predicate InBlock(b: Block, x: nat)
    requires b.size > 0
  {
    x / b.size == b.addr / b.size
  }

  lemma InBlockExactly(b: Block, space: nat, x: nat)
    requires BlockOk(b, space)
    ensures InBlock(b, x) <==> b.addr <= x < b.addr + b.size
  {
    var q := b.addr / b.size;
    assert b.addr == q * b.size;
    if b.addr <= x < b.addr + b.size {
      DivUnique(x, b.size, q);
    } else if x / b.size == q {
      assert false;
    }
  }

  lemma DivUnique(x: nat, n: nat, q: nat)
    requires n > 0 && q * n <= x < q * n + n
    ensures x / n == q
  {
    assert x == (x / n) * n + x % n;
    if x / n < q {
      MulMonotone(x / n + 1, q, n);
      assert false;
    } else if x / n > q {
      MulMonotone(q + 1, x / n, n);
      assert false;
    }
  }

  lemma MulMonotone(a: nat, b: nat, n: nat)
    requires a <= b
    ensures a * n <= b * n
  {
  }

  // Round robin: stay in the block while the counter is in it, or go to the next.
  function Pick(p: Config, c: Cursor): (d: Cursor)
    requires PoolOk(p) && CursorOk(p, c)
    ensures CursorOk(p, d)
  {
    if InBlock(p.blocks[c.cur], c.counter) then c
    else
      var next := if c.cur + 1 == |p.blocks| then 0 else c.cur + 1;
      Cursor(next, p.blocks[next].addr)
  }

  /** pf_map_addr without sticky addresses: the address, the new cursor and the new
      `init_addr` (None when the caller passed no place for it). `rnd` is the counter
      as randomized, `hash` the hash of the source address. */
  function MapAddr(p: Config, c: Cursor, saddr: nat, hash: nat, init: Option<nat>, rnd: nat)
      : (r: (nat, Cursor, Option<nat>))
    requires PoolOk(p) && CursorOk(p, c)
    ensures CursorOk(p, r.1)
  {
    var b := p.blocks[c.cur];
    match p.kind
    case PlainAddr => (b.addr, c, init)
    case Bitmask => (PoolMask(b, saddr), c, init)
    case SrcHash => (PoolMask(b, hash), c, init)
    case Random =>
      if init == Some(0) then
        var n := PoolMask(b, rnd % p.space);
        (n, c.(counter := rnd % p.space), Some(n))
      else
        var counter := (c.counter + 1) % p.space;
        (PoolMask(b, counter), c.(counter := counter), init)
    case RoundRobin =>
      var d := Pick(p, c);
      (d.counter, d.(counter := (d.counter + 1) % p.space), if init == Some(0) then Some(d.counter) else init)
  }

  // A block's addresses.
  predicate Inside(b: Block, x: nat) { b.addr <= x < b.addr + b.size }

  /** The address a pool gives. A plain pool gives the address of its current block. A
      bitmask, source-hash or random pool gives the address of that block whose host part
      is the packet source's, the hash's, or the next counter's -- at the first call of a
      search that of a random draw, which is noted as the first address. A round-robin
      pool gives its counter while that is in the current block, or the first address of
      the next block, and counts on from there. */
  lemma AddressGiven(p: Config, c: Cursor, saddr: nat, hash: nat, init: Option<nat>, rnd: nat)
    requires PoolOk(p) && CursorOk(p, c)
    ensures var (a, c1, init1) := MapAddr(p, c, saddr, hash, init, rnd);
      var b := p.blocks[c.cur];
      var drawn := p.kind == Random && init == Some(0);
      var counter := if drawn then rnd % p.space else (c.counter + 1) % p.space;
      && Inside(p.blocks[c1.cur], a)
      && (p.kind == PlainAddr ==> a == b.addr && c1 == c)
      && (p.kind == Bitmask ==> a % b.size == saddr % b.size && c1 == c)
      && (p.kind == SrcHash ==> a % b.size == hash % b.size && c1 == c)
      && (p.kind == Random ==> a % b.size == counter % b.size && c1 == Cursor(c.cur, counter))
      && (p.kind == RoundRobin ==>
            var next := if c.cur == |p.blocks| - 1 then 0 else c.cur + 1;
            && c1.counter == (a + 1) % p.space
            && if Inside(b, c.counter) then a == c.counter && c1.cur == c.cur
               else a == p.blocks[next].addr && c1.cur == next)
      && init1 == if drawn || (p.kind == RoundRobin && init == Some(0)) then Some(a) else init
  {
    hide PoolMask, InBlock;
    var b := p.blocks[c.cur];
    assert BlockOk(b, p.space);
    InBlockExactly(b, p.space, c.counter);
    PoolMaskExactly(b, p.space, saddr);
    PoolMaskExactly(b, p.space, hash);
    PoolMaskExactly(b, p.space, rnd % p.space);
    PoolMaskExactly(b, p.space, (c.counter + 1) % p.space);
    assert forall k :: 0 <= k < |p.blocks| ==> BlockOk(p.blocks[k], p.space);
  }

  // Whether a source node found for the packet's source gives the address; a pool of
  // plain addresses does not ask.
  predicate Remembers(p: Config, node: Option<nat>) {
    !p.kind.PlainAddr? && node.Some? && node.value != 0
  }

  /** pf_map_addr with sticky addresses: `node` is the address the source node holds, if
      there is one, and `known` says that the caller has it from an earlier call. A node
      found for the first time gives its address; else it takes the one chosen. */
  function MapFor(p: Config, c: Cursor, node: Option<nat>, known: bool, a: Call)
      : (r: ((nat, Cursor, Option<nat>), Option<nat>))
    requires PoolOk(p) && CursorOk(p, c)
    ensures CursorOk(p, r.0.1)
  {
    if !known && Remembers(p, node) then ((node.value, c, a.init), node)
    else
      var m := MapAddr(p, c, a.saddr, a.hash, a.init, a.rnd);
      (m, if node.Some? && (known || !p.kind.PlainAddr?) then Some(m.0) else node)
  }

  /** With a source node: its address is given if it is not zero, the pool is not plain
      and the node has not been asked before; then neither pool nor node changes. Else
      the pool's own address is given, and the node, if there is one and was asked,
      holds that from then on. */
  lemma AddressRemembered(p: Config, c: Cursor, node: Option<nat>, known: bool, a: Call)
    requires PoolOk(p) && CursorOk(p, c)
    ensures var ((naddr, c1, init1), node1) := MapFor(p, c, node, known, a);
      var held := p.kind != PlainAddr && !known && node != None && node != Some(0);
      && (held ==> Some(naddr) == node == node1 && c1 == c && init1 == a.init)
      && (!held ==> (naddr, c1, init1) == MapAddr(p, c, a.saddr, a.hash, a.init, a.rnd))
      && (!held && (p.kind != PlainAddr || known) && node != None ==> node1 == Some(naddr))
      && (node == None || (p.kind == PlainAddr && !known) ==> node1 == node)
  {
    hide MapAddr;
  }

  // What pf_map_addr is called with.
  datatype Call = Call(saddr: nat, hash: nat, init: Option<nat>, rnd: nat)

  // ------------------------------------------------------------------ round robin

  function AddressesOf(b: Block): seq<nat> { seq(b.size, i requires 0 <= i < b.size => b.addr + i) }

  // The blocks, one after the other.
  function All(blocks: seq<Block>): seq<nat>
    decreases |blocks|
  {
    if blocks == [] then [] else All(blocks[..|blocks| - 1]) + AddressesOf(blocks[|blocks| - 1])
  }

  function Start(blocks: seq<Block>, k: nat): nat
    requires k <= |blocks|
  {
    |All(blocks[..k])|
  }

  lemma StartNext(blocks: seq<Block>, k: nat)
    requires k < |blocks|
    ensures Start(blocks, k + 1) == Start(blocks, k) + blocks[k].size
  {
    assert blocks[..k + 1][..k] == blocks[..k];
  }

  lemma {:induction false} AllAt(blocks: seq<Block>, k: nat, i: nat)
    requires k < |blocks| && i < blocks[k].size
    ensures Start(blocks, k) + i < |All(blocks)|
    ensures All(blocks)[Start(blocks, k) + i] == blocks[k].addr + i
    decreases |blocks|
  {
    var n := |blocks| - 1;
    if k == n {
      assert blocks[..n] == blocks[..k];
    } else {
      AllAt(blocks[..n], k, i);
      assert blocks[..n][..k] == blocks[..k];
    }
  }

  function Total(p: Config): nat { |All(p.blocks)| }

  // Where in the concatenation the next result is.
  function Pos(p: Config, c: Cursor): nat
    requires PoolOk(p) && CursorOk(p, c)
  {
    var d := Pick(p, c);
    Start(p.blocks, d.cur) + (if d.counter >= p.blocks[d.cur].addr then d.counter - p.blocks[d.cur].addr else 0)
  }

  function Advance(p: Config, c: Cursor): (d: Cursor)
    requires PoolOk(p) && CursorOk(p, c)
    ensures CursorOk(p, d)
  {
    var d := Pick(p, c);
    d.(counter := (d.counter + 1) % p.space)
  }

  lemma PickedIsIn(p: Config, c: Cursor)
    requires PoolOk(p) && CursorOk(p, c)
    ensures var d := Pick(p, c);
            p.blocks[d.cur].addr <= d.counter < p.blocks[d.cur].addr + p.blocks[d.cur].size
  {
    InBlockExactly(p.blocks[c.cur], p.space, c.counter);
  }

  // One result, and where the next one is.
  lemma NextIsAt(p: Config, c: Cursor)
    requires PoolOk(p) && CursorOk(p, c)
    ensures Pos(p, c) < Total(p) && Pick(p, c).counter == All(p.blocks)[Pos(p, c)]
    ensures Pos(p, Advance(p, c)) == if Pos(p, c) + 1 == Total(p) then 0 else Pos(p, c) + 1
  {
    hide All;
    PickedIsIn(p, c);
    var d := Pick(p, c);
    var b, i := p.blocks[d.cur], d.counter - p.blocks[d.cur].addr;
    AllAt(p.blocks, d.cur, i);
    var e := Advance(p, c);
    NextMod(d.counter, p.space);
    InBlockExactly(b, p.space, e.counter);
    StartNext(p.blocks, d.cur);
    if i + 1 < b.size {
      AllAt(p.blocks, d.cur, i + 1);
    } else if d.cur + 1 < |p.blocks| {
      AllAt(p.blocks, d.cur + 1, 0);
      assert !InBlock(b, e.counter);
    } else {
      assert p.blocks[..|p.blocks|] == p.blocks;
      assert p.blocks[..0] == [];
      assert !InBlock(b, e.counter);
      assert Start(p.blocks, 0) == 0 by { StartZero(p.blocks); }
    }
  }

  lemma StartZero(blocks: seq<Block>)
    ensures Start(blocks, 0) == 0
  {
  }

  // The next n results of a round-robin pool.
  function Results(p: Config, c: Cursor, n: nat): (r: seq<nat>)
    requires PoolOk(p) && CursorOk(p, c)
    ensures |r| == n
    decreases n
  {
    if n == 0 then [] else [Pick(p, c).counter] + Results(p, Advance(p, c), n - 1)
  }

  function Rotation(list: seq<nat>, k: nat): (r: seq<nat>)
    requires k <= |list|
    ensures |r| == |list|
  {
    list[k..] + list[..k]
  }

  lemma {:induction false} ResultsAre(p: Config, c: Cursor, n: nat)
    requires PoolOk(p) && CursorOk(p, c) && Pos(p, c) + n <= Total(p)
    ensures Results(p, c, n) == All(p.blocks)[Pos(p, c)..Pos(p, c) + n]
    decreases n
  {
    hide Pos, All, Pick, Advance;
    if n > 0 {
      NextIsAt(p, c);
      if n > 1 {
        ResultsAre(p, Advance(p, c), n - 1);
      }
    }
  }

  lemma {:induction false} ResultsSplit(p: Config, c: Cursor, m: nat, n: nat)
    requires PoolOk(p) && CursorOk(p, c) && m > 0 && Pos(p, c) + m == Total(p)
    ensures exists d :: CursorOk(p, d) && Pos(p, d) == 0 && Results(p, c, m + n) == Results(p, c, m) + Results(p, d, n)
    decreases m
  {
    hide Pos, All, Pick, Advance;
    NextIsAt(p, c);
    var e := Advance(p, c);
    if m == 1 {
      assert Results(p, c, 1 + n) == Results(p, c, 1) + Results(p, e, n);
    } else {
      ResultsSplit(p, e, m - 1, n);
      var d :| CursorOk(p, d) && Pos(p, d) == 0 && Results(p, e, m - 1 + n) == Results(p, e, m - 1) + Results(p, d, n);
      assert Results(p, c, m + n) == [Pick(p, c).counter] + Results(p, e, m - 1 + n);
      assert Results(p, c, m + n) == Results(p, c, m) + Results(p, d, n);
    }
  }

  lemma ResultsAreRotation(p: Config, c: Cursor)
    requires PoolOk(p) && CursorOk(p, c)
    ensures Pos(p, c) < Total(p)
    ensures Results(p, c, Total(p)) == Rotation(All(p.blocks), Pos(p, c))
  {
    hide Pos, All, Pick, Advance, Results;
    NextIsAt(p, c);
    var k, n := Pos(p, c), Total(p);
    ResultsSplit(p, c, n - k, k);
    var d :| CursorOk(p, d) && Pos(p, d) == 0 && Results(p, c, n - k + k) == Results(p, c, n - k) + Results(p, d, k);
    ResultsAre(p, c, n - k);
    ResultsAre(p, d, k);
    assert All(p.blocks)[k..n] == All(p.blocks)[k..];
  }

  /** The addresses pf_map_addr gives to calls one after the other. */
  function Answers(p: Config, c: Cursor, calls: seq<Call>): (r: seq<nat>)
    requires PoolOk(p) && CursorOk(p, c)
    ensures |r| == |calls|
    decreases |calls|
  {
    if calls == [] then []
    else
      var m := MapAddr(p, c, calls[0].saddr, calls[0].hash, calls[0].init, calls[0].rnd);
      [m.0] + Answers(p, m.1, calls[1..])
  }

  lemma {:induction false} AnswersAreResults(p: Config, c: Cursor, calls: seq<Call>)
    requires PoolOk(p) && CursorOk(p, c) && p.kind.RoundRobin?
    ensures Answers(p, c, calls) == Results(p, c, |calls|)
    decreases |calls|
  {
    if calls != [] {
      AnswersAreResults(p, Advance(p, c), calls[1..]);
    }
  }

  /** Round robin is fair: from any counter and whoever asks, as many calls of
      pf_map_addr as there are addresses give the concatenated blocks, rotated. */
  lemma RoundRobinIsFair(p: Config, c: Cursor, calls: seq<Call>)
    requires PoolOk(p) && CursorOk(p, c) && p.kind.RoundRobin? && |calls| == Total(p)
    ensures Pos(p, c) < Total(p)
    ensures Answers(p, c, calls) == Rotation(All(p.blocks), Pos(p, c))
  {
    ResultsAreRotation(p, c);
    AnswersAreResults(p, c, calls);
  }

  predicate Disjoint(p: Config) {
    forall j, k :: 0 <= j < k < |p.blocks| ==>
      p.blocks[j].addr + p.blocks[j].size <= p.blocks[k].addr || p.blocks[k].addr + p.blocks[k].size <= p.blocks[j].addr
  }

  ghost predicate EachOnce(list: seq<nat>) { forall i, j :: 0 <= i < j < |list| ==> list[i] != list[j] }

  lemma {:induction false} AllInSomeBlock(blocks: seq<Block>, x: nat)
    requires x in All(blocks)
    ensures exists k :: 0 <= k < |blocks| && blocks[k].addr <= x < blocks[k].addr + blocks[k].size
    decreases |blocks|
  {
    var n := |blocks| - 1;
    if x in All(blocks[..n]) {
      AllInSomeBlock(blocks[..n], x);
      var k :| 0 <= k < n && blocks[..n][k].addr <= x < blocks[..n][k].addr + blocks[..n][k].size;
      assert blocks[k].addr <= x < blocks[k].addr + blocks[k].size;
    } else {
      assert x in AddressesOf(blocks[n]);
      assert blocks[n].addr <= x < blocks[n].addr + blocks[n].size;
    }
  }

  lemma EachOnceAppend(a: seq<nat>, b: seq<nat>)
    requires EachOnce(a) && EachOnce(b) && forall x :: x in a ==> x !in b
    ensures EachOnce(a + b)
  {
    forall i, j | 0 <= i < j < |a + b|
      ensures (a + b)[i] != (a + b)[j]
    {
      if i < |a| <= j {
        assert a[i] in a;
      }
    }
  }

  lemma LastBlockApart(p: Config, x: nat)
    requires Disjoint(p) && p.blocks != [] && x in All(p.blocks[..|p.blocks| - 1])
    ensures x !in AddressesOf(p.blocks[|p.blocks| - 1])
  {
    hide All;
    var q := p.blocks[..|p.blocks| - 1];
    AllInSomeBlock(q, x);
    var k :| 0 <= k < |q| && q[k].addr <= x < q[k].addr + q[k].size;
    assert p.blocks[k] == q[k];
  }

  lemma {:induction false} DisjointEachOnce(p: Config)
    requires Disjoint(p)
    ensures EachOnce(All(p.blocks))
    decreases |p.blocks|
  {
    if p.blocks != [] {
      var n := |p.blocks| - 1;
      var q := p.(blocks := p.blocks[..n]);
      assert Disjoint(q);
      DisjointEachOnce(q);
      forall x | x in All(q.blocks)
        ensures x !in AddressesOf(p.blocks[n])
      {
        LastBlockApart(p, x);
      }
      EachOnceAppend(All(q.blocks), AddressesOf(p.blocks[n]));
    }
  }

  lemma RotationEachOnce(list: seq<nat>, k: nat)
    requires k <= |list| && EachOnce(list)
    ensures EachOnce(Rotation(list, k))
  {
  }

  /** ... so that, when the blocks do not overlap, each address comes once. */
  lemma RoundRobinGivesEachOnce(p: Config, c: Cursor, calls: seq<Call>)
    requires PoolOk(p) && CursorOk(p, c) && Disjoint(p) && p.kind.RoundRobin? && |calls| == Total(p)
    ensures EachOnce(Answers(p, c, calls))
    ensures multiset(Answers(p, c, calls)) == multiset(All(p.blocks))
  {
    hide Answers, Pos, All;
    RoundRobinIsFair(p, c, calls);
    DisjointEachOnce(p);
    var k := Pos(p, c);
    RotationEachOnce(All(p.blocks), k);
    assert All(p.blocks) == All(p.blocks)[..k] + All(p.blocks)[k..];
  }

  /** A translation pool of a rule. */
  class Pool {
    const config: Config
    var cur: nat
    var counter: nat

    predicate Valid()
      reads this
    {
      PoolOk(config) && CursorOk(config, Cursor(cur, counter))
    }

    constructor (p: Config)
      requires PoolOk(p)
      ensures Valid() && config == p && cur == 0 && counter == 0
    {
      assert BlockOk(p.blocks[0], p.space);
      config, cur, counter := p, 0, 0;
    }

    method NextAddress(saddr: nat, hash: nat, init: Option<nat>, rnd: nat) returns (naddr: nat, init': Option<nat>)
      requires Valid()
      modifies this`cur, this`counter
      ensures Valid()
      ensures (naddr, Cursor(cur, counter), init')
           == MapAddr(config, Cursor(old(cur), old(counter)), saddr, hash, init, rnd)
    {
      var b := config.blocks[cur];
      init' := init;
      match config.kind {
        case PlainAddr => naddr := b.addr;
        case Bitmask => naddr := PoolMask(b, saddr);
        case SrcHash => naddr := PoolMask(b, hash);
        case Random =>
          if init == Some(0) {
            counter := rnd % config.space;
            naddr := PoolMask(b, counter);
            init' := Some(naddr);
          } else {
            counter := (counter + 1) % config.space;
            naddr := PoolMask(b, counter);
          }
        case RoundRobin =>
          if !InBlock(b, counter) {
            cur := if cur + 1 == |config.blocks| then 0 else cur + 1;
            counter := config.blocks[cur].addr;
          }
          naddr := counter;
          if init == Some(0) {
            init' := Some(naddr);
          }
          counter := (counter + 1) % config.space;
      }
    }

    // With a source node; see `MapFor`.
    method NextFor(node: Option<nat>, known: bool, saddr: nat, hash: nat, init: Option<nat>, rnd: nat)
      returns (naddr: nat, init': Option<nat>, node': Option<nat>)
      requires Valid()
      modifies this`cur, this`counter
      ensures Valid()
      ensures ((naddr, Cursor(cur, counter), init'), node')
           == MapFor(config, Cursor(old(cur), old(counter)), node, known, Call(saddr, hash, init, rnd))
    {
      if !known && !config.kind.PlainAddr? && node.Some? && node.value != 0 {
        return node.value, init, node;
      }
      naddr, init' := NextAddress(saddr, hash, init, rnd);
      node' := if node.Some? && (known || !config.kind.PlainAddr?) then Some(naddr) else node;
    }
  }
}
