/** The masking of addresses word by word, bit by bit, as pf_match_addr and pf_poolmask
    do it, and what it means for prefix masks. */
module AddressBits {
  import opened StateTable
  import opened AddressPool

  function Pow2(n: nat): (r: nat)
    ensures r > 0
  {
    if n == 0 then 1 else 2 * Pow2(n - 1)
  }

  lemma {:induction false} Pow2Add(m: nat, n: nat)
    ensures Pow2(m + n) == Pow2(m) * Pow2(n)
  {
    if n > 0 {
      Pow2Add(m, n - 1);
    }
  }

  predicate And(x: bool, y: bool) { x && y }
  predicate Or(x: bool, y: bool) { x || y }
  predicate Xor(x: bool, y: bool) { x != y }

  function Bit(b: bool): nat { if b then 1 else 0 }

  // C's bitwise operation `op` on the low n bits of x and y.
  function Bitwise(op: (bool, bool) -> bool, x: nat, y: nat, n: nat): (r: nat)
    ensures r < Pow2(n)
    decreases n
  {
    if n == 0 then 0 else 2 * Bitwise(op, x / 2, y / 2, n - 1) + Bit(op(x % 2 == 1, y % 2 == 1))
  }

  // An operation on two parts of a number is the operation on the whole.
  lemma {:induction false} BitwiseConcat(op: (bool, bool) -> bool, a: nat, b: nat, c: nat, d: nat, n: nat, k: nat)
    requires b < Pow2(k) && d < Pow2(k)
    ensures Bitwise(op, a * Pow2(k) + b, c * Pow2(k) + d, n + k)
         == Bitwise(op, a, c, n) * Pow2(k) + Bitwise(op, b, d, k)
    decreases k
  {
    if k > 0 {
      Halves(a, b, k);
      Halves(c, d, k);
      BitwiseConcat(op, a, b / 2, c, d / 2, n, k - 1);
      assert 2 * (Bitwise(op, a, c, n) * Pow2(k - 1)) == Bitwise(op, a, c, n) * Pow2(k) by {
        DoublePower(Bitwise(op, a, c, n), k);
      }
    }
  }

  lemma DoublePower(a: nat, k: nat)
    requires k > 0
    ensures 2 * (a * Pow2(k - 1)) == a * Pow2(k)
  {
  }

  lemma Halves(a: nat, b: nat, k: nat)
    requires k > 0 && b < Pow2(k)
    ensures (a * Pow2(k) + b) / 2 == a * Pow2(k - 1) + b / 2 && (a * Pow2(k) + b) % 2 == b % 2
    ensures b / 2 < Pow2(k - 1)
  {
    assert a * Pow2(k) == 2 * (a * Pow2(k - 1));
  }

  // ----------------------------------------------------------- masks of n bits

  // All ones.
  lemma {:induction false} AndOnes(x: nat, n: nat)
    requires x < Pow2(n)
    ensures Bitwise(And, x, Pow2(n) - 1, n) == x
    ensures Bitwise(And, Pow2(n) - 1, x, n) == x
  {
    if n > 0 {
      AndOnes(x / 2, n - 1);
    }
  }

  lemma {:induction false} XorOnes(x: nat, n: nat)
    requires x < Pow2(n)
    ensures Bitwise(Xor, x, Pow2(n) - 1, n) == Pow2(n) - 1 - x
  {
    if n > 0 {
      XorOnes(x / 2, n - 1);
      assert (Pow2(n) - 1) / 2 == Pow2(n - 1) - 1;
    }
  }

  lemma {:induction false} WithZero(x: nat, n: nat)
    requires x < Pow2(n)
    ensures Bitwise(And, x, 0, n) == 0 && Bitwise(And, 0, x, n) == 0
    ensures Bitwise(Or, x, 0, n) == x && Bitwise(Or, 0, x, n) == x
  {
    if n > 0 {
      WithZero(x / 2, n - 1);
    }
  }

  // The mask of n bits that leaves the low k to the host.
  function Mask(n: nat, k: nat): nat
    requires k <= n
  {
    (Pow2(n - k) - 1) * Pow2(k)
  }

  lemma MaskIs(n: nat, k: nat)
    requires k <= n
    ensures Mask(n, k) == Pow2(n) - Pow2(k)
  {
    Pow2Add(n - k, k);
    assert (Pow2(n - k) - 1) * Pow2(k) == Pow2(n - k) * Pow2(k) - Pow2(k);
  }

  lemma DivBound(x: nat, p: nat, q: nat)
    requires p > 0 && x < q * p
    ensures x == x / p * p + x % p && x / p < q
  {
    if x / p >= q {
      MulMonotone(q, x / p, p);
      assert false;
    }
  }

  lemma HighLow(x: nat, n: nat, k: nat)
    requires k <= n && x < Pow2(n)
    ensures x == x / Pow2(k) * Pow2(k) + x % Pow2(k) && x / Pow2(k) < Pow2(n - k)
  {
    hide Pow2;
    Pow2Add(n - k, k);
    DivBound(x, Pow2(k), Pow2(n - k));
  }

  // The network and the host part.
  function NetPart(x: nat, k: nat): int { x / Pow2(k) * Pow2(k) }
  function HostPart(x: nat, k: nat): nat { x % Pow2(k) }

  // Masking keeps the network part; the inverted mask keeps the host part.
  lemma Masked(x: nat, n: nat, k: nat)
    requires k <= n && x < Pow2(n)
    ensures Bitwise(And, x, Mask(n, k), n) == NetPart(x, k)
    ensures Bitwise(And, Pow2(k) - 1, x, n) == HostPart(x, k)
  {
    hide Bitwise, Pow2;
    var h, l := x / Pow2(k), x % Pow2(k);
    HighLow(x, n, k);
    AndOnes(h, n - k);
    AndOnes(l, k);
    WithZero(h, n - k);
    WithZero(l, k);
    BitwiseConcat(And, h, l, Pow2(n - k) - 1, 0, n - k, k);
    BitwiseConcat(And, 0, Pow2(k) - 1, h, l, n - k, k);
    assert 0 * Pow2(k) == 0;
  }

  lemma OrDigits(h: nat, l: nat, n: nat, k: nat)
    requires k <= n && h < Pow2(n - k) && l < Pow2(k)
    ensures 0 <= h * Pow2(k) && Bitwise(Or, h * Pow2(k), l, n) == h * Pow2(k) + l
  {
    hide Bitwise, Pow2;
    WithZero(h, n - k);
    WithZero(l, k);
    BitwiseConcat(Or, h, 0, 0, l, n - k, k);
    assert 0 * Pow2(k) == 0;
  }

  lemma Joined(x: nat, y: nat, n: nat, k: nat)
    requires k <= n && x < Pow2(n)
    ensures 0 <= NetPart(x, k) && Bitwise(Or, NetPart(x, k), HostPart(y, k), n) == NetPart(x, k) + HostPart(y, k)
  {
    hide Bitwise, Pow2;
    HighLow(x, n, k);
    OrDigits(x / Pow2(k), y % Pow2(k), n, k);
  }

  // ------------------------------------------------------- one number of n bits

  // PF_POOLMASK as the code computes it.
  function PoolMaskBits(raddr: nat, rmask: nat, saddr: nat, n: nat): nat {
    Bitwise(Or, Bitwise(And, raddr, rmask, n), Bitwise(And, Bitwise(Xor, rmask, Pow2(n) - 1, n), saddr, n), n)
  }

  lemma PoolMaskParts(raddr: nat, x: nat, k: nat)
    ensures PoolMask(Block(raddr, Pow2(k)), x) == NetPart(raddr, k) + HostPart(x, k)
  {
    hide Pow2;
  }

  lemma PoolMaskBitsIs(raddr: nat, x: nat, n: nat, k: nat)
    requires k <= n && raddr < Pow2(n) && x < Pow2(n)
    ensures PoolMaskBits(raddr, Mask(n, k), x, n) == PoolMask(Block(raddr, Pow2(k)), x)
  {
    hide Bitwise, Pow2, Mask, PoolMask, NetPart, HostPart;
    MaskIs(n, k);
    XorOnes(Mask(n, k), n);
    Masked(raddr, n, k);
    Masked(x, n, k);
    PoolMaskParts(raddr, x, k);
    Joined(raddr, x, n, k);
  }

  // Equal masked bits.
  predicate MatchBits(a: nat, m: nat, b: nat, n: nat) { Bitwise(And, a, m, n) == Bitwise(And, b, m, n) }

  lemma MatchBitsIs(a: nat, b: nat, n: nat, k: nat)
    requires k <= n && a < Pow2(n) && b < Pow2(n)
    ensures MatchBits(a, Mask(n, k), b, n) <==> InBlock(Block(a, Pow2(k)), b)
  {
    hide Bitwise, Pow2, Mask;
    Masked(a, n, k);
    Masked(b, n, k);
    MulCancel(a / Pow2(k), b / Pow2(k), Pow2(k));
  }

  lemma MulCancel(u: nat, v: nat, p: nat)
    requires p > 0
    ensures u * p == v * p <==> u == v
  {
    if u < v {
      MulMonotone(u + 1, v, p);
    } else if v < u {
      MulMonotone(v + 1, u, p);
    }
  }

  // ------------------------------------------------ four words in network order

  function Width(af: nat): nat { if af == AF_INET then 32 else 128 }

  // A number of two digits to the given base.
  function Join(h: nat, l: nat, base: nat): nat { h * base + l }

  function Word(a: nat, b: nat, c: nat, d: nat): nat { Join(Join(Join(d, c, 0x100), b, 0x100), a, 0x100) }

  lemma Powers()
    ensures Pow2(8) == 0x100 && Pow2(32) == W
  {
    Pow2Add(8, 8);
    Pow2Add(16, 16);
  }

  lemma JoinByte(op: (bool, bool) -> bool, a: nat, b: nat, c: nat, d: nat, n: nat)
    requires b < 0x100 && d < 0x100
    ensures Bitwise(op, b, d, 8) < 0x100
    ensures Bitwise(op, Join(a, b, 0x100), Join(c, d, 0x100), n + 8)
         == Join(Bitwise(op, a, c, n), Bitwise(op, b, d, 8), 0x100)
  {
    hide Bitwise, Pow2;
    Powers();
    BitwiseConcat(op, a, b, c, d, n, 8);
  }

  lemma JoinWord(op: (bool, bool) -> bool, a: nat, b: nat, c: nat, d: nat, n: nat)
    requires b < W && d < W
    ensures Bitwise(op, b, d, 32) < W
    ensures Bitwise(op, Join(a, b, W), Join(c, d, W), n + 32) == Join(Bitwise(op, a, c, n), Bitwise(op, b, d, 32), W)
  {
    hide Bitwise, Pow2;
    Powers();
    BitwiseConcat(op, a, b, c, d, n, 32);
  }

  lemma BitwiseWord(op: (bool, bool) -> bool, a: nat, b: nat, c: nat, d: nat, x: nat, y: nat, z: nat, t: nat)
    requires a < 0x100 && b < 0x100 && c < 0x100 && d < 0x100
    requires x < 0x100 && y < 0x100 && z < 0x100 && t < 0x100
    ensures Bitwise(op, Word(a, b, c, d), Word(x, y, z, t), 32)
         == Word(Bitwise(op, a, x, 8), Bitwise(op, b, y, 8), Bitwise(op, c, z, 8), Bitwise(op, d, t, 8))
  {
    hide Bitwise, Pow2, Join;
    var dc, tz := Join(d, c, 0x100), Join(t, z, 0x100);
    JoinByte(op, Join(dc, b, 0x100), a, Join(tz, y, 0x100), x, 24);
    JoinByte(op, dc, b, tz, y, 16);
    JoinByte(op, d, c, t, z, 8);
  }

  function Bytes(u: nat): (r: (nat, nat, nat, nat))
    requires u < W
    ensures r.0 < 0x100 && r.1 < 0x100 && r.2 < 0x100 && r.3 < 0x100 && u == Word(r.0, r.1, r.2, r.3)
  {
    (u % 0x100, u / 0x100 % 0x100, u / 0x1_0000 % 0x100, u / 0x100_0000)
  }

  lemma SwapWord(a: nat, b: nat, c: nat, d: nat)
    requires a < 0x100 && b < 0x100 && c < 0x100 && d < 0x100
    ensures Word(a, b, c, d) < W && Swap32(Word(a, b, c, d)) == Word(d, c, b, a)
  {
    hide Swap32;
    SwapBytes(a, b, c, d);
    assert Word(a, b, c, d) == a + 0x100 * (b + 0x100 * (c + 0x100 * d));
  }

  // Bytes in the other order: the bits within them stay.
  lemma BitwiseSwap(op: (bool, bool) -> bool, u: nat, v: nat)
    requires u < W && v < W
    ensures Bitwise(op, u, v, 32) < W && Swap32(Bitwise(op, u, v, 32)) == Bitwise(op, Swap32(u), Swap32(v), 32)
  {
    hide Bitwise, Pow2, Swap32, Word, Bytes;
    var (a, b, c, d) := Bytes(u);
    var (x, y, z, t) := Bytes(v);
    BitwiseWord(op, a, b, c, d, x, y, z, t);
    BitwiseWord(op, d, c, b, a, t, z, y, x);
    SwapWord(a, b, c, d);
    SwapWord(x, y, z, t);
    Powers();
    SwapWord(Bitwise(op, a, x, 8), Bitwise(op, b, y, 8), Bitwise(op, c, z, 8), Bitwise(op, d, t, 8));
  }

  lemma QuadJoin(a: nat, b: nat, c: nat, d: nat)
    ensures Quad(a, b, c, d) == Join(Join(Join(a, b, W), c, W), d, W)
  {
  }

  lemma BitwiseQuad(op: (bool, bool) -> bool, a: nat, b: nat, c: nat, d: nat, x: nat, y: nat, z: nat, t: nat)
    requires a < W && b < W && c < W && d < W && x < W && y < W && z < W && t < W
    ensures Bitwise(op, Quad(a, b, c, d), Quad(x, y, z, t), 128)
         == Quad(Bitwise(op, a, x, 32), Bitwise(op, b, y, 32), Bitwise(op, c, z, 32), Bitwise(op, d, t, 32))
  {
    hide Bitwise, Pow2, Quad, Join;
    var ab, xy := Join(a, b, W), Join(x, y, W);
    QuadJoin(a, b, c, d);
    QuadJoin(x, y, z, t);
    JoinWord(op, Join(ab, c, W), d, Join(xy, z, W), t, 96);
    JoinWord(op, ab, c, xy, z, 64);
    JoinWord(op, a, b, x, y, 32);
    QuadJoin(Bitwise(op, a, x, 32), Bitwise(op, b, y, 32), Bitwise(op, c, z, 32), Bitwise(op, d, t, 32));
  }

  // The operation on each word.
  function OnWords(op: (bool, bool) -> bool, a: seq<nat>, b: seq<nat>): (r: seq<nat>)
    requires Words(a) && Words(b)
    ensures |r| == 4 && forall i :: 0 <= i < 4 ==> r[i] == Bitwise(op, a[i], b[i], 32)
  {
    seq(4, i requires 0 <= i < 4 => Bitwise(op, a[i], b[i], 32))
  }

  /** An operation on the words of two addresses is the operation on the addresses. */
  lemma OnWordsValue(op: (bool, bool) -> bool, a: seq<nat>, b: seq<nat>, af: nat)
    requires Words(a) && Words(b) && (af == AF_INET || af == AF_INET6)
    ensures Words(OnWords(op, a, b))
    ensures Value(af, OnWords(op, a, b)) == Bitwise(op, Value(af, a), Value(af, b), Width(af))
  {
    hide Bitwise, Swap32, Quad;
    forall i | 0 <= i < 4
      ensures Bitwise(op, a[i], b[i], 32) < W
      ensures Swap32(Bitwise(op, a[i], b[i], 32)) == Bitwise(op, Swap32(a[i]), Swap32(b[i]), 32)
    {
      BitwiseSwap(op, a[i], b[i]);
    }
    if af == AF_INET6 {
      BitwiseQuad(op, Swap32(a[0]), Swap32(a[1]), Swap32(a[2]), Swap32(a[3]),
                  Swap32(b[0]), Swap32(b[1]), Swap32(b[2]), Swap32(b[3]));
    }
  }

  // `m` masks all but the low k bits.
  predicate IsMask(m: seq<nat>, af: nat, k: nat) {
    Words(m) && k <= Width(af) && Value(af, m) == Mask(Width(af), k)
  }

  const ONES := [W - 1, W - 1, W - 1, W - 1]

  lemma OnesValue(af: nat)
    requires af == AF_INET || af == AF_INET6
    ensures Words(ONES) && Value(af, ONES) == Pow2(Width(af)) - 1
  {
    hide Pow2;
    Pow2Width(af);
    Swap32Twice(W - 1);
  }

  lemma Pow2Width(af: nat)
    requires af == AF_INET || af == AF_INET6
    ensures Pow2(Width(af)) == Space(af)
  {
    hide Pow2;
    Powers();
    Pow2Add(32, 32);
    Pow2Add(64, 64);
  }

  lemma ValueBound(af: nat, a: seq<nat>)
    requires Words(a) && (af == AF_INET || af == AF_INET6)
    ensures Value(af, a) < Pow2(Width(af))
  {
    hide Pow2, Swap32;
    Pow2Width(af);
  }

  function MaskedWord(raddr: nat, rmask: nat, saddr: nat): nat {
    Bitwise(Or, Bitwise(And, raddr, rmask, 32), Bitwise(And, Bitwise(Xor, rmask, W - 1, 32), saddr, 32), 32)
  }

  // The words that pf_poolmask computes are the address it should.
  lemma MaskedWords(raddr: seq<nat>, rmask: seq<nat>, saddr: seq<nat>, af: nat) returns (r: seq<nat>)
    requires Words(raddr) && Words(rmask) && Words(saddr) && (af == AF_INET || af == AF_INET6)
    ensures Words(r) && forall i :: 0 <= i < 4 ==> r[i] == MaskedWord(raddr[i], rmask[i], saddr[i])
    ensures Value(af, r) == PoolMaskBits(Value(af, raddr), Value(af, rmask), Value(af, saddr), Width(af))
  {
    hide Bitwise, Value, Pow2, Width;
    OnesValue(af);
    OnWordsValue(And, raddr, rmask, af);
    OnWordsValue(Xor, rmask, ONES, af);
    var net, inv := OnWords(And, raddr, rmask), OnWords(Xor, rmask, ONES);
    OnWordsValue(And, inv, saddr, af);
    var host := OnWords(And, inv, saddr);
    OnWordsValue(Or, net, host, af);
    r := OnWords(Or, net, host);
  }

  /** pf_poolmask with a mask that leaves k bits to the host: the address of the block
      with the host part of `saddr`. */
  method PoolMaskInto(naddr: array<nat>, raddr: seq<nat>, rmask: seq<nat>, saddr: seq<nat>, af: nat, ghost k: nat)
    requires Words(naddr[..]) && Words(raddr) && Words(saddr) && (af == AF_INET || af == AF_INET6)
    requires IsMask(rmask, af, k)
    modifies naddr
    ensures Words(naddr[..])
    ensures Value(af, naddr[..]) == PoolMask(Block(Value(af, raddr), Pow2(k)), Value(af, saddr))
    ensures af == AF_INET ==> naddr[1..] == old(naddr[1..])
  {
    hide Bitwise, Pow2, Mask, PoolMask, PoolMaskBits, Swap32, Quad;
    ghost var r := MaskedWords(raddr, rmask, saddr, af);
    ValueBound(af, raddr);
    ValueBound(af, saddr);
    PoolMaskBitsIs(Value(af, raddr), Value(af, saddr), Width(af), k);
    naddr[0] := MaskedWord(raddr[0], rmask[0], saddr[0]);
    if af != AF_INET {
      naddr[1] := MaskedWord(raddr[1], rmask[1], saddr[1]);
      naddr[2] := MaskedWord(raddr[2], rmask[2], saddr[2]);
      naddr[3] := MaskedWord(raddr[3], rmask[3], saddr[3]);
    }
  }

  lemma SameValue(af: nat, a: seq<nat>, b: seq<nat>)
    requires Words(a) && Words(b) && (af == AF_INET || af == AF_INET6)
    ensures Value(af, a) == Value(af, b) <==> if af == AF_INET then a[0] == b[0] else a == b
  {
    hide Swap32;
    forall i | 0 <= i < 4
      ensures Swap32(a[i]) == Swap32(b[i]) <==> a[i] == b[i]
    {
      Swap32Twice(a[i]);
      Swap32Twice(b[i]);
    }
  }

  /** pf_match_addr with such a mask: whether b is in a's block, or, with `neg`, not. */
  method MatchAddr(neg: bool, a: seq<nat>, m: seq<nat>, b: seq<nat>, af: nat, ghost k: nat) returns (r: bool)
    requires Words(a) && Words(b) && IsMask(m, af, k) && (af == AF_INET || af == AF_INET6)
    ensures r <==> InBlock(Block(Value(af, a), Pow2(k)), Value(af, b)) != neg
  {
    hide Bitwise, Pow2, Mask, Value, InBlock;
    OnWordsValue(And, a, m, af);
    OnWordsValue(And, b, m, af);
    SameValue(af, OnWords(And, a, m), OnWords(And, b, m));
    ValueBound(af, a);
    ValueBound(af, b);
    MatchBitsIs(Value(af, a), Value(af, b), Width(af), k);
    var hit := false;
    if af == AF_INET {
      hit := Bitwise(And, a[0], m[0], 32) == Bitwise(And, b[0], m[0], 32);
    } else {
      hit := Bitwise(And, a[0], m[0], 32) == Bitwise(And, b[0], m[0], 32)
          && Bitwise(And, a[1], m[1], 32) == Bitwise(And, b[1], m[1], 32)
          && Bitwise(And, a[2], m[2], 32) == Bitwise(And, b[2], m[2], 32)
          && Bitwise(And, a[3], m[3], 32) == Bitwise(And, b[3], m[3], 32);
    }
    r := if hit then !neg else neg;
  }
}
