/** pf's incremental checksum updates against the Internet checksum of RFC 1071:
    the one's complement sum of all 16-bit words, checksum included, is 0xFFFF. */
module Checksum {
  type Word = x: int | 0 <= x <= 0xFFFF

  const ONES: Word := 0xFFFF

  // ------------------------------------------------------- the Internet checksum

  // One's complement addition: the carry is added back in.
  function OcAdd(a: Word, b: Word): Word {
    if a + b > 0xFFFF then a + b - 0xFFFF else a + b
  }

  function OcSum(ws: seq<Word>): Word {
    if ws == [] then 0 else OcAdd(ws[0], OcSum(ws[1..]))
  }

  predicate ValidSum(ws: seq<Word>) { OcSum(ws) == ONES }

  function Total(ws: seq<Word>): nat {
    if ws == [] then 0 else ws[0] + Total(ws[1..])
  }

  // Equality of one's complement numbers: 0 and 0xFFFF are the same.
  predicate Congruent(a: int, b: int) { (a - b) % 0xFFFF == 0 }

  lemma CongruentTrans(a: int, b: int, c: int)
    requires Congruent(a, b) && Congruent(b, c)
    ensures Congruent(a, c)
  {
  }

  lemma CongruentShift(r: int, c: int, d: int, e: int)
    requires Congruent(r, c + d) && Congruent(c, e)
    ensures Congruent(r, e + d)
  {
  }

  lemma CongruentSelf(a: int)
    ensures Congruent(a, a)
  {
  }

  // One fixup before a chain of others.
  lemma FixupChain(cksum: int, x: int, y: int, c: int, s: int, t: int, r: int, udp: bool)
    requires (udp && cksum == 0) || (Congruent(c, cksum + x - y) && Congruent(r, c + s - t))
    ensures (udp && cksum == 0) || Congruent(r, cksum + (x + s) - (y + t))
  {
    if !(udp && cksum == 0) {
      CongruentShift(r, c, s - t, cksum + x - y);
    }
  }

  lemma {:induction false} OcSumIsTotal(ws: seq<Word>)
    ensures Congruent(OcSum(ws), Total(ws))
    ensures OcSum(ws) == 0 <==> Total(ws) == 0
  {
    if ws != [] {
      OcSumIsTotal(ws[1..]);
      var a, b := ws[0], OcSum(ws[1..]);
      assert OcAdd(a, b) == a + b || OcAdd(a, b) == a + b - 0xFFFF;
      assert Congruent(a + b, a + Total(ws[1..]));
      CongruentTrans(OcAdd(a, b), a + b, Total(ws));
    }
  }

  // A checksum is right when the words add up to a positive multiple of 0xFFFF.
  lemma ValidSumIsMultiple(ws: seq<Word>)
    ensures ValidSum(ws) <==> Total(ws) > 0 && Total(ws) % 0xFFFF == 0
  {
    OcSumIsTotal(ws);
    var o, t: int := OcSum(ws), Total(ws);
    assert (o - t) % 0xFFFF == 0;
    assert o % 0xFFFF == t % 0xFFFF;
  }

  lemma TotalOne(w: Word)
    ensures Total([w]) == w
  {
  }

  lemma {:induction false} TotalConcat(a: seq<Word>, b: seq<Word>)
    ensures Total(a + b) == Total(a) + Total(b)
  {
    if a == [] {
      assert a + b == b;
    } else {
      assert (a + b)[1..] == a[1..] + b;
      TotalConcat(a[1..], b);
    }
  }

  // ---------------------------------------------------------------- pf_cksum_fixup

  // One step of end-around carry, or borrow.
  function Fold(s: int): (r: Word)
    requires -0xFFFF <= s <= 2 * 0xFFFF
    ensures Congruent(r, s)
  {
    if s < 0 then s + 0xFFFF else if s > 0xFFFF then s - 0xFFFF else s
  }

  // What pf_cksum_fixup computes.
  function Fixup(cksum: Word, was: Word, now: Word, udp: bool): (r: Word)
    ensures Congruent(r, cksum + was - now) || (udp && cksum == 0)
    ensures udp ==> (r == 0 <==> cksum == 0)
  {
    if udp && cksum == 0 then 0
    else
      var l := Fold(cksum + was - now);
      if udp && l == 0 then 0xFFFF else l
  }

  /** pf_cksum_fixup as written: `l` is a 32-bit unsigned variable, so a negative
      difference wraps to just under 2^32 before it is folded. */
  method CksumFixup(cksum: Word, was: Word, now: Word, udp: bool) returns (r: Word)
    ensures r == Fixup(cksum, was, now, udp)
  {
    if udp && cksum == 0 {
      return 0;
    }
    var l := (cksum + was - now) % 0x1_0000_0000;
    assert l / 0x1_0000 == (if cksum + was < now then 0xFFFF else if cksum + was - now > 0xFFFF then 1 else 0);
    l := l / 0x1_0000 + l % 0x1_0000;
    l := l % 0x1_0000;
    if udp && l == 0 {
      return 0xFFFF;
    }
    return l;
  }

  /** The chain of fixups pf applies when the words `a` become the words `b`. */
  function FixupAll(cksum: Word, a: seq<Word>, b: seq<Word>, udp: bool): (r: Word)
    requires |a| == |b|
    ensures Congruent(r, cksum + Total(a) - Total(b)) || (udp && cksum == 0)
    ensures udp ==> (r == 0 <==> cksum == 0)
    decreases |a|
  {
    hide Congruent;
    if a == [] then
      CongruentSelf(cksum);
      cksum
    else
      var c := Fixup(cksum, a[0], b[0], udp);
      var r := FixupAll(c, a[1..], b[1..], udp);
      FixupChain(cksum, a[0], b[0], c, Total(a[1..]), Total(b[1..]), r, udp);
      r
  }

  /** What every use comes down to: the words `a` of a message, among others
      that do not change, become `b`; the fixed-up checksum is right again. */
  lemma FixupAllKeepsValid(rest: seq<Word>, a: seq<Word>, b: seq<Word>, cksum: Word, udp: bool)
    requires |a| == |b| && Total(rest) > 0 && !(udp && cksum == 0)
    requires ValidSum(rest + a + [cksum])
    ensures ValidSum(rest + b + [FixupAll(cksum, a, b, udp)])
  {
    hide FixupAll, OcSum, Total, Congruent;
    var c := FixupAll(cksum, a, b, udp);
    assert Total([cksum]) == cksum && Total([c]) == c by {
      TotalOne(cksum);
      TotalOne(c);
    }
    TotalConcat(rest, a);
    TotalConcat(rest + a, [cksum]);
    TotalConcat(rest, b);
    TotalConcat(rest + b, [c]);
    ValidSumIsMultiple(rest + a + [cksum]);
    ValidSumIsMultiple(rest + b + [c]);
    var before, after := Total(rest) + Total(a) + cksum, Total(rest) + Total(b) + c;
    CongruentAdd(c, cksum + Total(a) - Total(b), Total(rest) + Total(b));
    MultipleOf(after, before);
  }

  lemma CongruentAdd(x: int, y: int, d: int)
    requires Congruent(x, y)
    ensures Congruent(x + d, y + d)
  {
  }

  lemma MultipleOf(x: int, y: int)
    requires Congruent(x, y) && y % 0xFFFF == 0
    ensures x % 0xFFFF == 0
  {
  }

  // ------------------------------------------------------------------- undoing NAT

  // Congruent words are equal, but for the two zeros.
  lemma CongruentWords(x: Word, y: Word)
    requires Congruent(x, y) && x != 0 && x != ONES
    ensures x == y
  {
  }

  lemma UndoIsCongruent(cksum: Word, a: seq<Word>, b: seq<Word>, udp: bool)
    requires |a| == |b| && !(udp && cksum == 0)
    ensures Congruent(cksum, FixupAll(FixupAll(cksum, a, b, udp), b, a, udp))
  {
    hide FixupAll;
    var c := FixupAll(cksum, a, b, udp);
    var r := FixupAll(c, b, a, udp);
    var d := Total(b) - Total(a);
    assert Congruent(c + d, cksum);
    CongruentTrans(r, c + d, cksum);
    assert Congruent(cksum, r);
  }

  /** Rewriting a UDP header and rewriting it back restores its checksum. */
  lemma UndoUdp(cksum: Word, a: seq<Word>, b: seq<Word>)
    requires |a| == |b|
    ensures FixupAll(FixupAll(cksum, a, b, true), b, a, true) == cksum
  {
    hide FixupAll;
    if cksum != 0 {
      UndoIsCongruent(cksum, a, b, true);
      var r := FixupAll(FixupAll(cksum, a, b, true), b, a, true);
      if cksum == ONES {
        assert (0xFFFF - r) % 0xFFFF == 0;
      } else {
        CongruentWords(cksum, r);
      }
    }
  }

  // No rewrite and its undoing lose the checksum `c` of a protocol that is not UDP.
  ghost predicate AlwaysRestored(c: Word) {
    forall a: seq<Word>, b: seq<Word> | |a| == |b| ::
      FixupAll(FixupAll(c, a, b, false), b, a, false) == c
  }

  lemma FixupOne(cksum: Word, x: Word, y: Word)
    ensures FixupAll(cksum, [x], [y], false) == Fixup(cksum, x, y, false)
  {
  }

  lemma ZerosAreLost(c: Word)
    requires c == 0 || c == ONES
    ensures exists a: seq<Word>, b: seq<Word> ::
      (|a| == |b| && FixupAll(FixupAll(c, a, b, false), b, a, false) != c)
  {
    hide Congruent, Fixup;
    var x, y := (if c == 0 then 0 else 1) as Word, (if c == 0 then 1 else 0) as Word;
    ZeroLost(c, x, y);
    FixupOne(c, x, y);
    FixupOne(Fixup(c, x, y, false), y, x);
    assert |[x]| == |[y]| && FixupAll(FixupAll(c, [x], [y], false), [y], [x], false) != c;
  }

  lemma ZeroLost(c: Word, x: Word, y: Word)
    requires (c == 0 && x == 0 && y == 1) || (c == ONES && x == 1 && y == 0)
    ensures Fixup(Fixup(c, x, y, false), y, x, false) != c
  {
    hide Congruent;
  }

  /** Any other checksum comes back from every rewrite if and only if it is not
      one of the two zeros. */
  lemma UndoOtherExactly(c: Word)
    ensures AlwaysRestored(c) <==> c != 0 && c != ONES
  {
    hide FixupAll;
    if c == 0 || c == ONES {
      ZerosAreLost(c);
    } else {
      forall a: seq<Word>, b: seq<Word> | |a| == |b|
        ensures FixupAll(FixupAll(c, a, b, false), b, a, false) == c
      {
        UndoIsCongruent(c, a, b, false);
        CongruentWords(c, FixupAll(FixupAll(c, a, b, false), b, a, false));
      }
    }
  }

  // ------------------------------------------------------------ rewriting headers

  lemma {:induction false} FixupAllConcat(c: Word, a1: seq<Word>, b1: seq<Word>, a2: seq<Word>, b2: seq<Word>,
                                          udp: bool)
    requires |a1| == |b1| && |a2| == |b2|
    ensures FixupAll(FixupAll(c, a1, b1, udp), a2, b2, udp) == FixupAll(c, a1 + a2, b1 + b2, udp)
    decreases |a1|
  {
    if a1 == [] {
      assert a1 + a2 == a2 && b1 + b2 == b2;
    } else {
      assert (a1 + a2)[1..] == a1[1..] + a2 && (b1 + b2)[1..] == b1[1..] + b2;
      FixupAllConcat(Fixup(c, a1[0], b1[0], udp), a1[1..], b1[1..], a2, b2, udp);
    }
  }

  /** The checksum `after` is right for every message in which `before` was right
      and only the words `a` have become `b`. The other words are not all zero:
      they hold a version or a protocol number. */
  ghost predicate KeptValid(a: seq<Word>, before: Word, b: seq<Word>, after: Word) {
    forall rest: seq<Word> | Total(rest) > 0 && ValidSum(rest + a + [before]) ::
      ValidSum(rest + b + [after])
  }

  lemma FixupAllKept(a: seq<Word>, c: Word, b: seq<Word>, udp: bool)
    requires |a| == |b| && !(udp && c == 0)
    ensures KeptValid(a, c, b, FixupAll(c, a, b, udp))
  {
    forall rest: seq<Word> | Total(rest) > 0 && ValidSum(rest + a + [c])
      ensures ValidSum(rest + b + [FixupAll(c, a, b, udp)])
    {
      FixupAllKeepsValid(rest, a, b, c, udp);
    }
  }

  lemma SumReordered(x: seq<Word>, a: seq<Word>, b: seq<Word>, c: Word)
    ensures ValidSum(x + a + b + [c]) <==> ValidSum(x + b + a + [c])
  {
    TotalConcat(x + a + b, [c]);
    TotalConcat(x + b + a, [c]);
    TotalConcat(x + a, b);
    TotalConcat(x + b, a);
    TotalConcat(x, a);
    TotalConcat(x, b);
    ValidSumIsMultiple(x + a + b + [c]);
    ValidSumIsMultiple(x + b + a + [c]);
  }

  // One change of words after the other.
  lemma KeptBoth(p: seq<Word>, c: Word, p1: seq<Word>, mid: Word, a: seq<Word>, a1: seq<Word>, after: Word)
    requires KeptValid(p, c, p1, mid) && KeptValid(a, mid, a1, after)
    ensures KeptValid(p + a, c, p1 + a1, after)
  {
    forall rest: seq<Word> | Total(rest) > 0 && ValidSum(rest + (p + a) + [c])
      ensures ValidSum(rest + (p1 + a1) + [after])
    {
      assert rest + (p + a) + [c] == rest + p + a + [c] && rest + (p1 + a1) + [after] == rest + p1 + a1 + [after];
      SumReordered(rest, p, a, c);
      TotalConcat(rest, a);
      TotalConcat(rest, p1);
      assert ValidSum((rest + a) + p1 + [mid]);
      SumReordered(rest, a, p1, mid);
      assert ValidSum((rest + p1) + a1 + [after]);
    }
  }

  // A fixup keeps every message right.
  ghost predicate AlwaysKept(c: Word, udp: bool) {
    forall a: seq<Word>, b: seq<Word> | |a| == |b| :: KeptValid(a, c, b, FixupAll(c, a, b, udp))
  }

  /** Treating a checksum as UDP's, for which 0 means absent, keeps it right exactly if
      it is not 0. */
  lemma AlwaysKeptExactly(c: Word, udp: bool)
    ensures AlwaysKept(c, udp) <==> !(udp && c == 0)
  {
    if udp && c == 0 {
      var rest: seq<Word>, a: seq<Word>, b: seq<Word> := [ONES], [0], [1];
      TotalOne(ONES);
      assert rest + a + [c] == [ONES, 0, 0] && rest + b + [c] == [ONES, 1, 0];
      assert ValidSum([ONES, 0, 0]) && !ValidSum([ONES, 1, 0]) by { ZeroStaysWrong(); }
      assert FixupAll(0, a, b, true) == 0;
      assert !KeptValid(a, c, b, FixupAll(c, a, b, udp));
    } else {
      forall a: seq<Word>, b: seq<Word> | |a| == |b|
        ensures KeptValid(a, c, b, FixupAll(c, a, b, udp))
      {
        FixupAllKept(a, c, b, udp);
      }
    }
  }

  lemma ZeroStaysWrong()
    ensures ValidSum([ONES, 0, 0]) && !ValidSum([ONES, 1, 0])
  {
    assert [ONES, 0, 0] == [ONES] + [0] + [0] && [ONES, 1, 0] == [ONES] + [1] + [0];
    TotalConcat([ONES] + [0], [0]);
    TotalConcat([ONES], [0]);
    TotalConcat([ONES] + [1], [0]);
    TotalConcat([ONES], [1]);
    TotalOne(ONES);
    TotalOne(0);
    TotalOne(1);
    ValidSumIsMultiple([ONES, 0, 0]);
    ValidSumIsMultiple([ONES, 1, 0]);
  }

  // One end of a packet: address, port, and the two checksums that cover them.
  // An IPv4 address is two words, an IPv6 address eight.
  class End {
    var addr: seq<Word>
    var port: Word
    var ipSum: Word
    var sum: Word

    constructor (addr: seq<Word>, port: Word, ipSum: Word, sum: Word)
      ensures this.addr == addr && this.port == port && this.ipSum == ipSum && this.sum == sum
    {
      this.addr, this.port, this.ipSum, this.sum := addr, port, ipSum, sum;
    }

    /** pf_change_ap: sets address and port; both checksums stay right, and a UDP
        checksum is absent afterwards exactly when it was absent before. IPv6
        has no header checksum. */
    method ChangeAp(an: seq<Word>, pn: Word, udp: bool)
      requires |an| == |addr| && (|an| == 2 || |an| == 8)
      modifies this
      ensures addr == an && port == pn
      ensures ipSum == if |an| == 2 then FixupAll(old(ipSum), old(addr), an, false) else old(ipSum)
      ensures sum == FixupAll(old(sum), old(addr) + [old(port)], an + [pn], udp)
      ensures |an| == 2 ==> KeptValid(old(addr), old(ipSum), addr, ipSum)
      ensures !(udp && old(sum) == 0) ==> KeptValid(old(addr) + [old(port)], old(sum), addr + [port], sum)
      ensures udp ==> (sum == 0 <==> old(sum) == 0)
    {
      hide Congruent, Fixup, FixupAll, KeptValid;
      var ao, po := addr, port;
      addr, port := an, pn;
      if |an| == 2 {
        FixupAllKept(ao, ipSum, an, false);
        ipSum := FixupAll(ipSum, ao, an, false);
      }
      if !(udp && sum == 0) {
        FixupAllKept(ao + [po], sum, an + [pn], udp);
      }
      sum := FixupAll(sum, ao + [po], an + [pn], udp);
    }

    /** The roll-back of a refused packet: pf_change_ap, then pf_change_ap with
        the old address and port. A UDP checksum is restored exactly, as is any
        checksum that is not one of the two zeros. */
    method ChangeAndUndo(an: seq<Word>, pn: Word, udp: bool)
      requires |an| == |addr| && (|an| == 2 || |an| == 8)
      modifies this
      ensures addr == old(addr) && port == old(port)
      ensures udp || (old(sum) != 0 && old(sum) != ONES) ==> sum == old(sum)
      ensures |an| == 8 || (old(ipSum) != 0 && old(ipSum) != ONES) ==> ipSum == old(ipSum)
    {
      hide Congruent, Fixup, FixupAll, KeptValid;
      var baddr, bport := addr, port;
      ghost var s, i := sum, ipSum;
      ChangeAp(an, pn, udp);
      ChangeAp(baddr, bport, udp);
      UndoUdp(s, baddr + [bport], an + [pn]);
      UndoOtherExactly(s);
      UndoOtherExactly(i);
    }
  }

  datatype MaybeWord = Absent | Present(w: Word)

  /** What becomes of the quoted TCP or UDP checksum: it stays right for the change of the
      port, and a UDP checksum is absent if it was; nothing is done for the addresses. */
  ghost predicate QuotedSum(ip: MaybeWord, pc: MaybeWord, np: Word, udp: bool, after: MaybeWord) {
    ip.Present? && pc.Present? ==>
      && after.Present?
      && (if udp && pc.w == 0 then after.w == 0
          else KeptValid([ip.w], pc.w, [np], after.w) && (udp ==> after.w != 0))
      && after.w == Fixup(pc.w, ip.w, np, udp)
  }

  lemma FixupKept(c: Word, x: Word, y: Word, udp: bool)
    requires !(udp && c == 0)
    ensures KeptValid([x], c, [y], Fixup(c, x, y, udp))
  {
    assert FixupAll(c, [x], [y], udp) == Fixup(c, x, y, udp);
    FixupAllKept([x], c, [y], udp);
  }

  /** So with its address changed as well a quoted checksum, which covers that address,
      is right in every message in which it was if and only if the words of the new
      address add up to the same as those of the old one, in one's complement. */
  lemma QuotedSumKeptExactly(a: seq<Word>, b: seq<Word>, x: Word, y: Word, c: Word, udp: bool)
    requires !(udp && c == 0)
    ensures KeptValid(a + [x], c, b + [y], Fixup(c, x, y, udp)) <==> Congruent(Total(a), Total(b))
  {
    hide Fixup, Total, OcSum, ValidSum, Congruent, KeptValid;
    var d := Fixup(c, x, y, udp);
    if Congruent(Total(a), Total(b)) {
      SumsOf(a, x, b, y);
      CongruentSums(Total(a), Total(b), c, x, y, d);
      KeptByTotals(a + [x], c, b + [y], d);
    } else if KeptValid(a + [x], c, b + [y], d) {
      SumsOf(a, x, b, y);
      TotalsByKept(a + [x], c, b + [y], d);
      CongruentBack(Total(a), Total(b), c, x, y, d);
    }
  }

  lemma SumsOf(a: seq<Word>, x: Word, b: seq<Word>, y: Word)
    ensures Total(a + [x]) == Total(a) + x && Total(b + [y]) == Total(b) + y
  {
    TotalConcat(a, [x]);
    TotalConcat(b, [y]);
    TotalOne(x);
    TotalOne(y);
  }

  lemma CongruentSums(s: int, t: int, c: int, x: int, y: int, d: int)
    requires Congruent(s, t) && Congruent(d, c + x - y)
    ensures Congruent(s + x + c, t + y + d)
  {
  }

  lemma CongruentBack(s: int, t: int, c: int, x: int, y: int, d: int)
    requires Congruent(s + x + c, t + y + d) && Congruent(d, c + x - y)
    ensures Congruent(s, t)
  {
  }

  lemma TotalOfMessage(rest: seq<Word>, a: seq<Word>, c: Word)
    ensures Total(rest + a + [c]) == Total(rest) + Total(a) + c
  {
    TotalConcat(rest + a, [c]);
    TotalConcat(rest, a);
    TotalOne(c);
  }

  lemma KeptByTotals(a: seq<Word>, c: Word, b: seq<Word>, d: Word)
    requires Congruent(Total(a) + c, Total(b) + d)
    ensures KeptValid(a, c, b, d)
  {
    hide Total, OcSum, ValidSum;
    forall rest: seq<Word> | Total(rest) > 0 && ValidSum(rest + a + [c])
      ensures ValidSum(rest + b + [d])
    {
      TotalOfMessage(rest, a, c);
      TotalOfMessage(rest, b, d);
      ValidSumIsMultiple(rest + a + [c]);
      ValidSumIsMultiple(rest + b + [d]);
    }
  }

  // What adds up to a right checksum with `x`.
  function Complement(x: nat): (r: Word)
    ensures r > 0 && (r + x) % 0xFFFF == 0
  {
    0xFFFF - x % 0xFFFF
  }

  lemma RightExactly(rest: seq<Word>, a: seq<Word>, c: Word)
    requires Total(rest) > 0
    ensures ValidSum(rest + a + [c]) <==> (Total(rest) + (Total(a) + c)) % 0xFFFF == 0
  {
    hide Total, OcSum, ValidSum;
    TotalOfMessage(rest, a, c);
    ValidSumIsMultiple(rest + a + [c]);
  }

  lemma TotalsByKept(a: seq<Word>, c: Word, b: seq<Word>, d: Word)
    requires KeptValid(a, c, b, d)
    ensures Congruent(Total(a) + c, Total(b) + d)
  {
    hide Total, OcSum, ValidSum, Congruent, Complement, KeptValid;
    var x, y := Total(a) + c, Total(b) + d;
    var r := Complement(x);
    TotalOne(r);
    RightExactly([r], a, c);
    KeptIn([r], a, c, b, d);
    RightExactly([r], b, d);
    BothMultiples(r, x, y);
  }

  lemma KeptIn(rest: seq<Word>, a: seq<Word>, c: Word, b: seq<Word>, d: Word)
    requires KeptValid(a, c, b, d) && Total(rest) > 0 && ValidSum(rest + a + [c])
    ensures ValidSum(rest + b + [d])
  {
  }

  lemma BothMultiples(r: int, x: int, y: int)
    requires (r + x) % 0xFFFF == 0 && (r + y) % 0xFFFF == 0
    ensures Congruent(x, y)
  {
  }

  /** An ICMP error and the packet it quotes: `ia`, `ip`, `pc`, `h2c` are the
      quoted address, port, TCP/UDP checksum and IP checksum (port and checksum
      may be cut off), `ic` is the ICMP checksum, `oa` and `hc` the outer address
      and IP checksum. */
  class IcmpError {
    var ia: seq<Word>
    var ip: MaybeWord
    var pc: MaybeWord
    var h2c: Word
    var ic: Word
    var oa: seq<Word>
    var hc: Word

    constructor (ia: seq<Word>, ip: MaybeWord, pc: MaybeWord, h2c: Word, ic: Word, oa: seq<Word>, hc: Word)
      ensures this.ia == ia && this.ip == ip && this.pc == pc && this.h2c == h2c
      ensures this.ic == ic && this.oa == oa && this.hc == hc
    {
      this.ia, this.ip, this.pc, this.h2c, this.ic, this.oa, this.hc := ia, ip, pc, h2c, ic, oa, hc;
    }

    // The quoted words that change and that the ICMP checksum covers.
    ghost function Ports(): seq<Word>
      reads this
    {
      if ip.Present? then if pc.Present? then [ip.w] + [pc.w] else [ip.w] else []
    }

    ghost function Quoted(): seq<Word>
      reads this
    {
      Ports() + ia + [h2c]
    }

    // The quoted port and its checksum, under which the ICMP checksum changes.
    method ChangePort(np: Word, udp: bool)
      modifies this`ip, this`pc, this`ic
      ensures ip == (if old(ip).Present? then Present(np) else Absent)
      ensures pc.Present? == old(pc).Present? && (old(ip) == Absent ==> pc == old(pc))
      ensures QuotedSum(old(ip), old(pc), np, udp, pc)
      ensures |Ports()| == |old(Ports())| && ic == FixupAll(old(ic), old(Ports()), Ports(), false)
    {
      hide FixupAll, Fixup;
      ghost var c := ic;
      if ip.Present? {
        var oip, opc := ip.w, pc;
        ip := Present(np);
        if pc.Present? {
          if !(udp && pc.w == 0) {
            FixupKept(pc.w, oip, np, udp);
          }
          pc := Present(Fixup(pc.w, oip, np, udp));
        }
        FixupOne(c, oip, np);
        ic := Fixup(ic, oip, np, false);
        if pc.Present? {
          Append(c, [oip], [np], opc.w, pc.w, ic);
          ic := Fixup(ic, opc.w, pc.w, false);
        }
      } else {
        FixupNone(c);
      }
    }

    /** pf_change_icmp for AF_INET: outer IP, inner IP and ICMP checksums all stay
        right -- the last although the quoted checksums change under it. */
    method Change(na: seq<Word>, np: Word, udp: bool)
      requires |na| == 2 == |ia| == |oa|
      modifies this
      ensures ia == na && oa == na
      ensures ip == (if old(ip).Present? then Present(np) else Absent)
      ensures pc.Present? == old(pc).Present? && (old(ip) == Absent ==> pc == old(pc))
      ensures QuotedSum(old(ip), old(pc), np, udp, pc)
      ensures KeptValid(old(oa), old(hc), oa, hc)
      ensures KeptValid(old(ia), old(h2c), ia, h2c)
      ensures KeptValid(old(Quoted()), old(ic), Quoted(), ic)
    {
      hide FixupAll, Fixup, KeptValid;
      var oia, ooa := ia, oa;
      ghost var c, q, a := ic, Quoted(), Ports();
      ChangePort(np, udp);
      ghost var b := Ports();
      ia := na;
      var oh2c := h2c;
      h2c := FixupAll(h2c, oia, ia, false);
      FixupAllConcat(c, a, b, oia, ia, false);
      ic := FixupAll(ic, oia, ia, false);
      Append(c, a + oia, b + ia, oh2c, h2c, ic);
      ic := Fixup(ic, oh2c, h2c, false);
      oa := na;
      hc := FixupAll(hc, ooa, oa, false);
      FixupAllKept(oia, oh2c, ia, false);
      FixupAllKept(ooa, old(hc), oa, false);
      FixupAllKept(q, c, Quoted(), false);
    }

    /** pf_change_icmp for AF_INET6, where the ICMPv6 checksum covers both addresses and
        there is no other. For a quoted UDP packet the code takes it for a UDP checksum:
        it stays right unless it is 0 after the change of the port, and then stays 0. */
    method Change6(na: seq<Word>, np: Word, udp: bool)
      requires |na| == 8 == |ia| == |oa|
      modifies this
      ensures ia == na && oa == na && h2c == old(h2c) && hc == old(hc)
      ensures ip == (if old(ip).Present? then Present(np) else Absent)
      ensures pc.Present? == old(pc).Present? && (old(ip) == Absent ==> pc == old(pc))
      ensures QuotedSum(old(ip), old(pc), np, udp, pc)
      ensures var mid := FixupAll(old(ic), old(Ports()), Ports(), false);
        if udp && mid == 0 then ic == 0
        else KeptValid(old(Ports() + (ia + oa)), old(ic), Ports() + (ia + oa), ic)
    {
      hide FixupAll, Fixup, KeptValid;
      var oia, ooa := ia, oa;
      ghost var c, a := ic, Ports();
      ChangePort(np, udp);
      ghost var mid, b := ic, Ports();
      ia := na;
      ic := FixupAll(ic, oia, ia, udp);
      oa := na;
      ic := FixupAll(ic, ooa, oa, udp);
      FixupAllConcat(mid, oia, ia, ooa, oa, udp);
      FixupAllKept(a, c, b, false);
      if udp && mid == 0 {
        AbsentStays(oia + ooa, ia + oa);
      } else {
        FixupAllKept(oia + ooa, mid, ia + oa, udp);
        KeptBoth(a, c, b, mid, oia + ooa, ia + oa, ic);
      }
    }
  }

  lemma {:induction false} AbsentStays(a: seq<Word>, b: seq<Word>)
    requires |a| == |b|
    ensures FixupAll(0, a, b, true) == 0
  {
    if a != [] {
      AbsentStays(a[1..], b[1..]);
    }
  }

  lemma FixupNone(c: Word)
    ensures FixupAll(c, [], [], false) == c
  {
  }

  lemma Append(c: Word, a: seq<Word>, b: seq<Word>, x: Word, y: Word, sofar: Word)
    requires |a| == |b| && FixupAll(c, a, b, false) == sofar
    ensures FixupAll(c, a + [x], b + [y], false) == Fixup(sofar, x, y, false)
  {
    FixupAllConcat(c, a, b, [x], [y], false);
    FixupOne(sofar, x, y);
  }
}
