/** The state table: three search trees and the update list. Addresses are four
    32-bit words as pf.c reads them through `addr32`. */
module StateTable {
  const AF_INET := 2
  const AF_INET6 := 28

  datatype Addr = Addr(w0: nat, w1: nat, w2: nat, w3: nat)

  datatype Host = Host(addr: Addr, port: nat)

  /** The fields of `struct pf_state` that the trees use. */
  datatype State = State(
    proto: nat, af: nat, lan: Host, ext: Host, gwy: Host,
    id: nat, creatorid: nat, kif: nat)

  // ---------------------------------------------------------------- comparators

  // `if (x > y) return 1; if (x < y) return -1;`
  function Cmp(x: int, y: int): int { if x > y then 1 else if x < y then -1 else 0 }

  // The first difference that is not 0 is returned.
  function Or(x: int, y: int): int { if x != 0 then x else y }

  // Words from last to first, at each place first of one host, then of the other.
  function CompareAddrs(af: nat, a: Addr, b: Addr, c: Addr, d: Addr): int {
    if af == AF_INET then Or(Cmp(a.w0, b.w0), Cmp(c.w0, d.w0))
    else if af == AF_INET6 then
      Or(Cmp(a.w3, b.w3), Or(Cmp(c.w3, d.w3), Or(Cmp(a.w2, b.w2), Or(Cmp(c.w2, d.w2),
      Or(Cmp(a.w1, b.w1), Or(Cmp(c.w1, d.w1), Or(Cmp(a.w0, b.w0), Cmp(c.w0, d.w0))))))))
    else 0
  }

  function CompareHosts(a: State, b: State, a1: Host, b1: Host, a2: Host, b2: Host): int {
    Or(a.proto - b.proto, Or(a.af - b.af,
    Or(CompareAddrs(a.af, a1.addr, b1.addr, a2.addr, b2.addr),
    Or(a1.port - b1.port, a2.port - b2.port))))
  }

  // pf_state_compare_lan_ext
  function CompareLanExt(a: State, b: State): int { CompareHosts(a, b, a.lan, b.lan, a.ext, b.ext) }

  // pf_state_compare_ext_gwy
  function CompareExtGwy(a: State, b: State): int { CompareHosts(a, b, a.ext, b.ext, a.gwy, b.gwy) }

  // pf_state_compare_id
  function CompareId(a: State, b: State): int { Or(Cmp(a.id, b.id), Cmp(a.creatorid, b.creatorid)) }

  // The words of a key in the order in which a comparator looks at them.
  function AddrWords(af: nat, a: Addr, c: Addr): seq<int> {
    if af == AF_INET then [a.w0, c.w0]
    else if af == AF_INET6 then [a.w3, c.w3, a.w2, c.w2, a.w1, c.w1, a.w0, c.w0]
    else []
  }

  function HostWords(s: State, h1: Host, h2: Host): seq<int> {
    [s.proto, s.af] + AddrWords(s.af, h1.addr, h2.addr) + [h1.port, h2.port]
  }

  function LanExtKey(s: State): seq<int> { HostWords(s, s.lan, s.ext) }

  function ExtGwyKey(s: State): seq<int> { HostWords(s, s.ext, s.gwy) }

  function IdKey(s: State): seq<int> { [s.id, s.creatorid] }

  // Lexicographic comparison.
  function Lex(x: seq<int>, y: seq<int>): (r: int)
    ensures -1 <= r <= 1
    decreases |x|
  {
    if x == [] && y == [] then 0
    else if x == [] then -1
    else if y == [] then 1
    else Or(Cmp(x[0], y[0]), Lex(x[1..], y[1..]))
  }

  lemma {:induction false} LexZero(x: seq<int>, y: seq<int>)
    ensures Lex(x, y) == 0 <==> x == y
    decreases |x|
  {
    if x != [] && y != [] {
      LexZero(x[1..], y[1..]);
      assert x == [x[0]] + x[1..] && y == [y[0]] + y[1..];
    }
  }

  lemma {:induction false} LexAntisymmetric(x: seq<int>, y: seq<int>)
    ensures Lex(y, x) == -Lex(x, y)
    decreases |x|
  {
    if x != [] && y != [] {
      LexAntisymmetric(x[1..], y[1..]);
    }
  }

  lemma {:induction false} LexTransitive(x: seq<int>, y: seq<int>, z: seq<int>)
    requires Lex(x, y) <= 0 && Lex(y, z) <= 0
    ensures Lex(x, z) <= 0
    decreases |x|
  {
    if x != [] && y != [] && z != [] {
      if x[0] == y[0] == z[0] {
        LexTransitive(x[1..], y[1..], z[1..]);
      }
    }
  }

  // Comparing by a common prefix of equal length first.
  lemma {:induction false} LexAppend(p: seq<int>, q: seq<int>, x: seq<int>, y: seq<int>)
    requires |p| == |q|
    ensures Lex(p + x, q + y) == Or(Lex(p, q), Lex(x, y))
    decreases |p|
  {
    if p == [] {
      assert p + x == x && q + y == y;
    } else {
      assert (p + x)[1..] == p[1..] + x && (q + y)[1..] == q[1..] + y;
      LexAppend(p[1..], q[1..], x, y);
    }
  }

  lemma LexPair(a: int, b: int, c: int, d: int)
    ensures Lex([a, b], [c, d]) == Or(Cmp(a, c), Cmp(b, d))
  {
    assert [a, b][1..] == [b] && [c, d][1..] == [d] && [b][1..] == [] && [d][1..] == [];
    assert Lex([b], [d]) == Or(Cmp(b, d), Lex([], []));
  }

  lemma LexAddrs(af: nat, a: Addr, b: Addr, c: Addr, d: Addr)
    ensures Lex(AddrWords(af, a, c), AddrWords(af, b, d)) == CompareAddrs(af, a, b, c, d)
  {
    LexPair(a.w0, c.w0, b.w0, d.w0);
    if af == AF_INET6 {
      LexPair(a.w3, c.w3, b.w3, d.w3);
      LexPair(a.w2, c.w2, b.w2, d.w2);
      LexPair(a.w1, c.w1, b.w1, d.w1);
      LexAppend([a.w1, c.w1], [b.w1, d.w1], [a.w0, c.w0], [b.w0, d.w0]);
      LexAppend([a.w2, c.w2], [b.w2, d.w2], [a.w1, c.w1] + [a.w0, c.w0], [b.w1, d.w1] + [b.w0, d.w0]);
      LexAppend([a.w3, c.w3], [b.w3, d.w3], [a.w2, c.w2] + ([a.w1, c.w1] + [a.w0, c.w0]),
                [b.w2, d.w2] + ([b.w1, d.w1] + [b.w0, d.w0]));
      assert AddrWords(af, a, c) == [a.w3, c.w3] + ([a.w2, c.w2] + ([a.w1, c.w1] + [a.w0, c.w0]));
      assert AddrWords(af, b, d) == [b.w3, d.w3] + ([b.w2, d.w2] + ([b.w1, d.w1] + [b.w0, d.w0]));
    }
  }

  /** A host comparator agrees in sign with the lexicographic order of the key words. */
  lemma CompareHostsIsLex(a: State, b: State, a1: Host, b1: Host, a2: Host, b2: Host)
    ensures Cmp(CompareHosts(a, b, a1, b1, a2, b2), 0) == Lex(HostWords(a, a1, a2), HostWords(b, b1, b2))
  {
    hide Lex;
    LexPair(a.proto, a.af, b.proto, b.af);
    var x := AddrWords(a.af, a1.addr, a2.addr) + [a1.port, a2.port];
    var y := AddrWords(b.af, b1.addr, b2.addr) + [b1.port, b2.port];
    LexAppend([a.proto, a.af], [b.proto, b.af], x, y);
    assert HostWords(a, a1, a2) == [a.proto, a.af] + x && HostWords(b, b1, b2) == [b.proto, b.af] + y;
    if a.af == b.af {
      LexAddrs(a.af, a1.addr, b1.addr, a2.addr, b2.addr);
      LexPair(a1.port, a2.port, b1.port, b2.port);
      LexAppend(AddrWords(a.af, a1.addr, a2.addr), AddrWords(b.af, b1.addr, b2.addr), [a1.port, a2.port],
                [b1.port, b2.port]);
    }
  }

  // What it takes for two addresses to be equal in a family (PF_AEQ).
  predicate SameAddr(af: nat, a: Addr, b: Addr) {
    (af == AF_INET ==> a.w0 == b.w0) && (af == AF_INET6 ==> a == b)
  }

  predicate SameHost(af: nat, a: Host, b: Host) { SameAddr(af, a.addr, b.addr) && a.port == b.port }

  predicate SameHosts(a: State, b: State, a1: Host, b1: Host, a2: Host, b2: Host) {
    a.proto == b.proto && a.af == b.af && SameHost(a.af, a1, b1) && SameHost(a.af, a2, b2)
  }

  lemma HostWordsExact(a: State, b: State, a1: Host, b1: Host, a2: Host, b2: Host)
    ensures HostWords(a, a1, a2) == HostWords(b, b1, b2) <==> SameHosts(a, b, a1, b1, a2, b2)
  {
    var x, y := HostWords(a, a1, a2), HostWords(b, b1, b2);
    if x == y {
      assert x[0] == y[0] && x[1] == y[1];
      var n := |x|;
      assert x[n - 2] == y[n - 2] && x[n - 1] == y[n - 1];
      assert x[2..n - 2] == AddrWords(a.af, a1.addr, a2.addr) && y[2..n - 2] == AddrWords(b.af, b1.addr, b2.addr);
      SameWords(a.af, a1.addr, b1.addr, a2.addr, b2.addr);
    }
  }

  lemma SameWords(af: nat, a: Addr, b: Addr, c: Addr, d: Addr)
    requires AddrWords(af, a, c) == AddrWords(af, b, d)
    ensures SameAddr(af, a, b) && SameAddr(af, c, d)
  {
  }

  lemma HostsTotalOrder(a: State, b: State, c: State, a1: Host, b1: Host, c1: Host, a2: Host, b2: Host, c2: Host)
    ensures CompareHosts(a, b, a1, b1, a2, b2) < 0 <==> CompareHosts(b, a, b1, a1, b2, a2) > 0
    ensures CompareHosts(a, b, a1, b1, a2, b2) <= 0 && CompareHosts(b, c, b1, c1, b2, c2) <= 0 ==>
              CompareHosts(a, c, a1, c1, a2, c2) <= 0
    ensures CompareHosts(a, b, a1, b1, a2, b2) == 0 <==> SameHosts(a, b, a1, b1, a2, b2)
  {
    hide CompareHosts, Lex, HostWords, SameHosts;
    var x, y, z := HostWords(a, a1, a2), HostWords(b, b1, b2), HostWords(c, c1, c2);
    CompareHostsIsLex(a, b, a1, b1, a2, b2);
    CompareHostsIsLex(b, a, b1, a1, b2, a2);
    CompareHostsIsLex(b, c, b1, c1, b2, c2);
    CompareHostsIsLex(a, c, a1, c1, a2, c2);
    LexAntisymmetric(x, y);
    if Lex(x, y) <= 0 && Lex(y, z) <= 0 {
      LexTransitive(x, y, z);
    }
    LexZero(x, y);
    HostWordsExact(a, b, a1, b1, a2, b2);
  }

  /** pf_state_compare_lan_ext is a total order on its key: protocol, family, the
      addresses of that family, and the ports, of the inside and the far host. */
  lemma LanExtTotalOrder(a: State, b: State, c: State)
    ensures CompareLanExt(a, b) < 0 <==> CompareLanExt(b, a) > 0
    ensures CompareLanExt(a, b) <= 0 && CompareLanExt(b, c) <= 0 ==> CompareLanExt(a, c) <= 0
    ensures CompareLanExt(a, b) == 0 <==> SameHosts(a, b, a.lan, b.lan, a.ext, b.ext)
    ensures CompareLanExt(a, b) == 0 <==> LanExtKey(a) == LanExtKey(b)
  {
    HostsTotalOrder(a, b, c, a.lan, b.lan, c.lan, a.ext, b.ext, c.ext);
    HostWordsExact(a, b, a.lan, b.lan, a.ext, b.ext);
  }

  /** The same for pf_state_compare_ext_gwy and the far and the outside host. */
  lemma ExtGwyTotalOrder(a: State, b: State, c: State)
    ensures CompareExtGwy(a, b) < 0 <==> CompareExtGwy(b, a) > 0
    ensures CompareExtGwy(a, b) <= 0 && CompareExtGwy(b, c) <= 0 ==> CompareExtGwy(a, c) <= 0
    ensures CompareExtGwy(a, b) == 0 <==> SameHosts(a, b, a.ext, b.ext, a.gwy, b.gwy)
    ensures CompareExtGwy(a, b) == 0 <==> ExtGwyKey(a) == ExtGwyKey(b)
  {
    HostsTotalOrder(a, b, c, a.ext, b.ext, c.ext, a.gwy, b.gwy, c.gwy);
    HostWordsExact(a, b, a.ext, b.ext, a.gwy, b.gwy);
  }

  lemma IdTotalOrder(a: State, b: State, c: State)
    ensures CompareId(a, b) < 0 <==> CompareId(b, a) > 0
    ensures CompareId(a, b) <= 0 && CompareId(b, c) <= 0 ==> CompareId(a, c) <= 0
    ensures CompareId(a, b) == 0 <==> IdKey(a) == IdKey(b)
  {
  }
}
