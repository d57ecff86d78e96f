/** sasyncd's base64 encoder and strict decoder (RFC 4648 section 4), over arrays
    as in the C code. */
module Base64 {
  type Byte = x: int | 0 <= x < 256
  type Sextet = x: int | 0 <= x < 64

  // The string Base64 of the C code, in three parts.
  const UPPER := "ABCDEFGHIJKLMNOPQRSTUVWXYZ"
  const LOWER := "abcdefghijklmnopqrstuvwxyz"
  const OTHER := "0123456789+/"
  const ALPHABET := UPPER + LOWER + OTHER
  const PAD := '='

  // isspace in the C locale.
  predicate IsSpace(c: char) {
    c == ' ' || c == '\t' || c == '\n' || c == 11 as char || c == 12 as char || c == '\r'
  }

  // isspace in the C locale.
  lemma SpacesAre(c: char)
    ensures IsSpace(c) <==> 9 <= c as int <= 13 || c as int == 32
  {
  }

  // Base64[v], by ranges.
  function Letter(v: Sextet): (c: char)
    ensures c != PAD && !IsSpace(c) && c != 0 as char
  {
    if v < 26 then (65 + v) as char
    else if v < 52 then (71 + v) as char
    else if v < 62 then (v - 4) as char
    else if v == 62 then '+' else '/'
  }

  // strchr(Base64, c) as an index, -1 if there is none.
  function Value(c: char): (v: int)
    ensures v == -1 || (0 <= v < 64 && Letter(v) == c)
    ensures forall u: Sextet :: Letter(u) == c ==> v == u
  {
    if 'A' <= c <= 'Z' then c as int - 65
    else if 'a' <= c <= 'z' then c as int - 71
    else if '0' <= c <= '9' then c as int + 4
    else if c == '+' then 62 else if c == '/' then 63 else -1
  }

  lemma UpperLetters(v: Sextet)
    ensures |UPPER| == 26 && (v < 26 ==> UPPER[v] == Letter(v))
  {
  }

  lemma LowerLetters(v: Sextet)
    ensures |LOWER| == 26 && (26 <= v < 52 ==> LOWER[v - 26] == Letter(v))
  {
  }

  lemma OtherLetters(v: Sextet)
    ensures |OTHER| == 12 && (52 <= v ==> OTHER[v - 52] == Letter(v))
  {
  }

  /** The ranges of `Letter` are the C string. */
  lemma LetterIsAlphabet(v: Sextet)
    ensures |ALPHABET| == 64 && ALPHABET[v] == Letter(v)
  {
    hide Letter, UPPER, LOWER, OTHER;
    UpperLetters(v);
    LowerLetters(v);
    OtherLetters(v);
  }

  // ------------------------------------------------------------------ the format

  // Three bytes as four sextets, and back.
  function S0(a: Byte): Sextet { a / 4 }
  function S1(a: Byte, b: Byte): Sextet { a % 4 * 16 + b / 16 }
  function S2(b: Byte, c: Byte): Sextet { b % 16 * 4 + c / 64 }
  function S3(c: Byte): Sextet { c % 64 }

  function B0(u: Sextet, v: Sextet): Byte { u * 4 + v / 16 }
  function B1(v: Sextet, w: Sextet): Byte { v % 16 * 16 + w / 4 }
  function B2(w: Sextet, x: Sextet): Byte { w % 4 * 64 + x }

  /** Three bytes and their four letters are the digits of one number, to the base 256 and
      to the base 64, the first digit the highest; fewer bytes are filled up with zeros. */
  lemma SameNumber(a: Byte, b: Byte, c: Byte)
    ensures ((S0(a) * 64 + S1(a, b)) * 64 + S2(b, c)) * 64 + S3(c) == (a * 256 + b) * 256 + c
    ensures Group3(a, b, c) == [Letter(S0(a)), Letter(S1(a, b)), Letter(S2(b, c)), Letter(S3(c))]
    ensures Group2(a, b) == Group3(a, b, 0)[..3] + [PAD] && Group1(a) == Group3(a, 0, 0)[..2] + [PAD, PAD]
  {
  }

  lemma SplitJoin(u: Sextet, v: Sextet, w: Sextet, x: Sextet)
    ensures S0(B0(u, v)) == u && S1(B0(u, v), B1(v, w)) == v
    ensures S2(B1(v, w), B2(w, x)) == w && S3(B2(w, x)) == x
  {
  }

  // A group of four letters, and the two padded forms.
  function Group3(a: Byte, b: Byte, c: Byte): (s: string)
    ensures |s| == 4
  {
    [Letter(S0(a)), Letter(S1(a, b)), Letter(S2(b, c)), Letter(S3(c))]
  }

  function Group2(a: Byte, b: Byte): (s: string)
    ensures |s| == 4
  {
    [Letter(S0(a)), Letter(S1(a, b)), Letter(S2(b, 0)), PAD]
  }

  function Group1(a: Byte): (s: string)
    ensures |s| == 4
  {
    [Letter(S0(a)), Letter(S1(a, 0)), PAD, PAD]
  }

  function Encode(d: seq<Byte>): string {
    if |d| == 0 then ""
    else if |d| == 1 then Group1(d[0])
    else if |d| == 2 then Group2(d[0], d[1])
    else Group3(d[0], d[1], d[2]) + Encode(d[3..])
  }

  function Strip(s: string): string {
    if s == "" then ""
    else if IsSpace(s[0]) then Strip(s[1..]) else [s[0]] + Strip(s[1..])
  }

  lemma {:induction false} EncodeLength(d: seq<Byte>)
    ensures |Encode(d)| == (|d| + 2) / 3 * 4
  {
    hide Group1, Group2, Group3;
    if |d| > 2 {
      EncodeLength(d[3..]);
      assert |d[3..]| == |d| - 3;
    }
  }

  // Whole groups in front do not change what follows.
  lemma {:induction false} EncodeConcat(d: seq<Byte>, e: seq<Byte>)
    requires |d| % 3 == 0
    ensures Encode(d + e) == Encode(d) + Encode(e)
  {
    if d == [] {
      assert d + e == e;
    } else {
      assert (d + e)[3..] == d[3..] + e;
      EncodeConcat(d[3..], e);
    }
  }

  lemma LetterInjective(u: Sextet, v: Sextet)
    ensures Letter(u) == Letter(v) <==> u == v
    ensures Value(Letter(u)) == u
  {
  }

  // What the k-th character of the encoding of d says about d.
  ghost predicate Shape(d: seq<Byte>, e: string, k: nat)
    requires k < |e|
  {
    if e[k] != PAD then Value(e[k]) >= 0 && |d| >= k / 4 * 3 + (if k % 4 == 0 then 1 else k % 4)
    else
      && k % 4 >= 2 && |e| == k / 4 * 4 + 4 && (forall j :: k <= j < |e| ==> e[j] == PAD)
      && (k % 4 == 2 ==> |d| == k / 4 * 3 + 1 && Value(e[k - 1]) % 16 == 0)
      && (k % 4 == 3 && e[k - 1] != PAD ==> |d| == k / 4 * 3 + 2 && Value(e[k - 1]) % 4 == 0)
  }

  lemma ShapeOfGroup(d: seq<Byte>, e: string, k: nat)
    requires d != [] && k < 4
    requires if |d| == 1 then e == Group1(d[0]) else if |d| == 2 then e == Group2(d[0], d[1])
      else Group3(d[0], d[1], d[2]) <= e
    ensures Shape(d, e, k)
  {
  }

  // One whole group in front shifts the shape by four.
  lemma ShapeShift(d: seq<Byte>, g: string, f: string, k: nat)
    requires |d| > 2 && |g| == 4 <= k < |g + f| && Shape(d[3..], f, k - 4)
    ensures Shape(d, g + f, k)
  {
  }

  /** A letter tells how long the data is at least; a pad tells how it ends, and
      that the bits before it are zero. */
  lemma {:induction false} EncodeShape(d: seq<Byte>, k: nat)
    requires k < |Encode(d)|
    ensures Shape(d, Encode(d), k)
  {
    hide Letter, Value, Group1, Group2, Group3, Shape;
    if k < 4 {
      ShapeOfGroup(d, Encode(d), k);
    } else {
      EncodeShape(d[3..], k - 4);
      ShapeShift(d, Group3(d[0], d[1], d[2]), Encode(d[3..]), k);
    }
  }

  lemma GroupsInjective(a: Byte, b: Byte, c: Byte, x: Byte, y: Byte, z: Byte)
    requires S0(a) == S0(x) && S1(a, b) == S1(x, y) && S2(b, c) == S2(y, z) && S3(c) == S3(z)
    ensures a == x && b == y && c == z
  {
  }

  lemma Group3Injective(a: Byte, b: Byte, c: Byte, x: Byte, y: Byte, z: Byte)
    requires Group3(a, b, c) == Group3(x, y, z)
    ensures a == x && b == y && c == z
  {
    hide Letter, S0, S1, S2, S3;
    var s, t := Group3(a, b, c), Group3(x, y, z);
    assert s[0] == t[0] && s[1] == t[1] && s[2] == t[2] && s[3] == t[3];
    LetterInjective(S0(a), S0(x));
    LetterInjective(S1(a, b), S1(x, y));
    LetterInjective(S2(b, c), S2(y, z));
    LetterInjective(S3(c), S3(z));
    GroupsInjective(a, b, c, x, y, z);
  }

  lemma Group2Injective(a: Byte, b: Byte, x: Byte, y: Byte)
    requires Group2(a, b) == Group2(x, y)
    ensures a == x && b == y
  {
    hide Letter, S0, S1, S2;
    var s, t := Group2(a, b), Group2(x, y);
    assert s[0] == t[0] && s[1] == t[1] && s[2] == t[2];
    LetterInjective(S0(a), S0(x));
    LetterInjective(S1(a, b), S1(x, y));
    LetterInjective(S2(b, 0), S2(y, 0));
    GroupsInjective(a, b, 0, x, y, 0);
  }

  lemma Group1Injective(a: Byte, x: Byte)
    requires Group1(a) == Group1(x)
    ensures a == x
  {
  }

  // The encodings of two byte strings have the same length only if these have.
  lemma LengthFromEncoding(d: seq<Byte>, e: seq<Byte>)
    requires Encode(d) == Encode(e)
    ensures |d| == |e|
  {
    hide Encode, Value;
    EncodeLength(d);
    EncodeLength(e);
    var n := |Encode(d)|;
    if n > 0 {
      EncodeShape(d, n - 1);
      EncodeShape(e, n - 1);
      EncodeShape(d, n - 2);
      EncodeShape(e, n - 2);
    }
  }

  /** Different data has different encodings. */
  lemma {:induction false} EncodeInjective(d: seq<Byte>, e: seq<Byte>)
    requires Encode(d) == Encode(e)
    ensures d == e
    decreases |d|
  {
    hide Group1, Group2, Group3;
    LengthFromEncoding(d, e);
    if |d| == 1 {
      Group1Injective(d[0], e[0]);
    } else if |d| == 2 {
      Group2Injective(d[0], d[1], e[0], e[1]);
    } else if |d| > 2 {
      assert Encode(d)[..4] == Group3(d[0], d[1], d[2]) && Encode(e)[..4] == Group3(e[0], e[1], e[2]);
      assert Encode(d)[4..] == Encode(d[3..]) && Encode(e)[4..] == Encode(e[3..]);
      EncodeInjective(d[3..], e[3..]);
      Group3Injective(d[0], d[1], d[2], e[0], e[1], e[2]);
      assert d == d[..3] + d[3..] && e == e[..3] + e[3..];
    }
  }

  // ------------------------------------------------------------------- b64_ntop

  // One whole group more.
  lemma EncodeGroup(d: seq<Byte>, p: nat)
    requires p + 3 <= |d| && p % 3 == 0
    ensures Encode(d[..p + 3]) == Encode(d[..p]) + Group3(d[p], d[p + 1], d[p + 2])
  {
    hide Group3;
    var g := d[p..p + 3];
    assert d[..p + 3] == d[..p] + g && g[3..] == [];
    EncodeConcat(d[..p], g);
    assert Encode(g) == Group3(g[0], g[1], g[2]) + Encode([]);
  }

  lemma EncodeTail(d: seq<Byte>, p: nat)
    requires p <= |d| < p + 3 && p % 3 == 0
    ensures Encode(d) == Encode(d[..p]) + Encode(d[p..])
    ensures |Encode(d[..p])| == p / 3 * 4
  {
    EncodeConcat(d[..p], d[p..]);
    assert d == d[..p] + d[p..];
    EncodeLength(d[..p]);
  }

  // Four times target[datalength++] = ...
  method Store4(target: array<char>, at: nat, c0: char, c1: char, c2: char, c3: char)
    requires at + 4 <= target.Length
    modifies target
    ensures target[..at + 4] == old(target[..at]) + [c0, c1, c2, c3]
    ensures forall k :: at + 4 <= k < target.Length ==> target[k] == old(target[k])
  {
    target[at], target[at + 1], target[at + 2], target[at + 3] := c0, c1, c2, c3;
  }

  /** b64_ntop: succeeds exactly when the encoding and its NUL fit, and then
      stores just these; nothing is ever stored behind the first targsize. */
  method Ntop(src: seq<Byte>, target: array<char>, targsize: nat) returns (n: int)
    requires targsize <= target.Length
    modifies target
    ensures n == if |Encode(src)| < targsize then |Encode(src)| else -1
    ensures n >= 0 ==> target[..n] == Encode(src) && target[n] == 0 as char
    ensures forall k :: targsize <= k < target.Length ==> target[k] == old(target[k])
  {
    hide Encode, Group1, Group2, S0, S1, S2, S3, Letter;
    EncodeLength(src);
    var p, datalength := 0, 0;
    assert Encode(src[..0]) == [] by { EncodeLength(src[..0]); }
    while 2 < |src| - p
      invariant p % 3 == 0 && p <= |src| && datalength == p / 3 * 4 <= targsize
      invariant target[..datalength] == Encode(src[..p])
      invariant forall k :: targsize <= k < target.Length ==> target[k] == old(target[k])
    {
      var a, b, c := src[p], src[p + 1], src[p + 2];
      if datalength + 4 > targsize {
        return -1;
      }
      Store4(target, datalength, Letter(S0(a)), Letter(S1(a, b)), Letter(S2(b, c)), Letter(S3(c)));
      EncodeGroup(src, p);
      p, datalength := p + 3, datalength + 4;
    }
    EncodeTail(src, p);
    assert src[..|src|] == src;
    if p != |src| {
      var a, b := src[p], if p + 1 < |src| then src[p + 1] else 0;
      if datalength + 4 > targsize {
        return -1;
      }
      Store4(target, datalength, Letter(S0(a)), Letter(S1(a, b)),
             if p + 1 == |src| then PAD else Letter(S2(b, 0)), PAD);
      EncodeShort(src[p..]);
      datalength := datalength + 4;
    } else {
      EncodeShort(src[p..]);
      assert src[..p] == src;
    }
    if datalength >= targsize {
      return -1;
    }
    target[datalength] := 0 as char;
    return datalength;
  }

  lemma EncodeShort(d: seq<Byte>)
    requires |d| < 3
    ensures |d| == 0 ==> Encode(d) == []
    ensures |d| == 1 ==> Encode(d) == [Letter(S0(d[0])), Letter(S1(d[0], 0)), PAD, PAD]
    ensures |d| == 2 ==> Encode(d) == [Letter(S0(d[0])), Letter(S1(d[0], d[1])), Letter(S2(d[1], 0)), PAD]
  {
  }

  // ------------------------------------------------------------------- b64_pton

  ghost predicate Letters(s: string) {
    forall k :: 0 <= k < |s| ==> Value(s[k]) >= 0
  }

  // The bytes stored for the first letters of a group; missing sextets are 0.
  ghost predicate Partial(g: string, t: seq<Byte>) {
    && |g| < 4 && |g| <= |t| && Letters(g)
    && (|g| == 1 ==> t[0] == B0(Value(g[0]), 0))
    && (|g| == 2 ==> t[0] == B0(Value(g[0]), Value(g[1])) && t[1] == B1(Value(g[1]), 0))
    && (|g| == 3 ==> t[0] == B0(Value(g[0]), Value(g[1])) && t[1] == B1(Value(g[1]), Value(g[2]))
                     && t[2] == B2(Value(g[2]), 0))
  }

  /** The letters `done` have been read and the buffer `t` holds what they say:
      whole groups re-encode to themselves, then comes a partial group. */
  ghost predicate Decoded(done: string, t: seq<Byte>) {
    var q := |done| / 4;
    && Letters(done) && 3 * q <= |t|
    && Encode(t[..3 * q]) == done[..4 * q]
    && Partial(done[4 * q..], t[3 * q..])
  }

  // tarindex after n letters.
  function Index(n: nat): nat {
    n / 4 * 3 + if n % 4 <= 1 then 0 else n % 4 - 1
  }

  // The bits a letter of value v adds to the byte under construction.
  function High(n: nat, v: Sextet): nat {
    if n % 4 == 0 then v * 4 else if n % 4 == 1 then v / 16 else if n % 4 == 2 then v / 4 else v
  }

  // The bits left for the next byte; for a second or third letter only.
  function Low(n: nat, v: Sextet): Byte {
    if n % 4 == 1 then v % 16 * 16 else v % 4 * 64
  }

  predicate Spills(n: nat) { n % 4 == 1 || n % 4 == 2 }

  lemma RoomToOr(done: string, t: seq<Byte>, v: Sextet)
    requires Decoded(done, t) && |done| % 4 != 0
    ensures Index(|done|) < |t| && t[Index(|done|)] + High(|done|, v) < 256
  {
  }

  // The buffer after one more letter of value v.
  ghost function Stored(done: string, t: seq<Byte>, v: Sextet): (r: seq<Byte>)
    requires Decoded(done, t)
    requires Index(|done|) + (if Spills(|done|) then 1 else 0) < |t|
    ensures |r| == |t|
  {
    var n, i := |done|, Index(|done|);
    if n % 4 == 0 then t[i := High(n, v)]
    else
      RoomToOr(done, t, v);
      var t1 := t[i := t[i] + High(n, v)];
      if Spills(n) then t1[i + 1 := Low(n, v)] else t1
  }

  // The letters of whole groups, and of the partial one.
  ghost predicate Grouped(whole: string, g: string, t: seq<Byte>, q: nat) {
    && |whole| == 4 * q && 3 * q <= |t| && Letters(whole)
    && Encode(t[..3 * q]) == whole && Partial(g, t[3 * q..])
  }

  lemma DecodedIsGrouped(whole: string, g: string, t: seq<Byte>, q: nat)
    requires |whole| == 4 * q && |g| < 4
    ensures Decoded(whole + g, t) <==> Grouped(whole, g, t, q)
  {
    hide Value, Encode, Partial;
    var s := whole + g;
    assert |s| / 4 == q && s[..4 * q] == whole && s[4 * q..] == g;
    if Letters(whole) && Letters(g) {
      assert Letters(s);
    }
    if Letters(s) {
      assert forall k :: 0 <= k < |whole| ==> whole[k] == s[k];
    }
    assert Partial(g, t) ==> Letters(g) by { PartialLetters(g, t); }
    if 3 * q <= |t| {
      PartialLetters(g, t[3 * q..]);
    }
  }

  lemma PartialLetters(g: string, t: seq<Byte>)
    ensures Partial(g, t) ==> Letters(g)
  {
  }

  lemma GroupedStep(whole: string, g: string, t: seq<Byte>, q: nat, c: char, r: seq<Byte>)
    requires Grouped(whole, g, t, q) && Value(c) >= 0 && |g| < 3
    requires |r| == |t| && r[..3 * q] == t[..3 * q] && Partial(g + [c], r[3 * q..])
    ensures Grouped(whole, g + [c], r, q)
  {
  }

  lemma GroupedLast(whole: string, g: string, t: seq<Byte>, q: nat, c: char, r: seq<Byte>)
    requires Grouped(whole, g, t, q) && Value(c) >= 0 && |g| == 3
    requires r == t[3 * q + 2 := B2(Value(g[2]), Value(c))]
    ensures Grouped(whole + (g + [c]), [], r, q + 1)
  {
    hide Value, Encode, B0, B1, B2, Group3;
    var u := t[3 * q..];
    assert u[0] == t[3 * q] && u[1] == t[3 * q + 1];
    GroupStep(g, c);
    EncodeGroup(r, 3 * q);
    assert r[..3 * q] == t[..3 * q];
    assert r[3 * (q + 1)..] == r[3 * q + 3..];
  }

  /** Storing a letter's bits extends what has been decoded by that letter. */
  lemma DecodedStep(done: string, t: seq<Byte>, c: char)
    requires Decoded(done, t) && Value(c) >= 0
    requires Index(|done|) + (if Spills(|done|) then 1 else 0) < |t|
    ensures Decoded(done + [c], Stored(done, t, Value(c)))
  {
    hide Value, Encode, Decoded, Grouped;
    var q := |done| / 4;
    var r := Stored(done, t, Value(c));
    var whole, g := done[..4 * q], done[4 * q..];
    assert done == whole + g;
    DecodedIsGrouped(whole, g, t, q);
    StoredAt(done, t, Value(c), g, q);
    assert Grouped(whole, g, t, q);
    assert Partial(g, t[3 * q..]) by { GroupedParts(whole, g, t, q); }
    if |g| < 3 {
      PartialStep(g, t[3 * q..], c, r[3 * q..]);
      GroupedStep(whole, g, t, q, c, r);
      DecodedIsGrouped(whole, g + [c], r, q);
      assert done + [c] == whole + (g + [c]);
    } else {
      GroupedLast(whole, g, t, q, c, r);
      DecodedIsGrouped(whole + (g + [c]), [], r, q + 1);
      assert done + [c] == whole + (g + [c]) + [];
    }
  }

  lemma GroupedParts(whole: string, g: string, t: seq<Byte>, q: nat)
    requires Grouped(whole, g, t, q)
    ensures 3 * q <= |t| && Partial(g, t[3 * q..])
  {
  }

  // Where `Stored` differs from t.
  lemma StoredAt(done: string, t: seq<Byte>, v: Sextet, g: string, q: nat)
    requires Decoded(done, t) && q == |done| / 4 && g == done[4 * q..]
    requires Index(|done|) + (if Spills(|done|) then 1 else 0) < |t|
    ensures 3 * q + |g| < |t| || |g| == 3
    ensures var r := Stored(done, t, v);
      && r[..3 * q] == t[..3 * q]
      && (forall k :: 0 <= k < |g| - 1 ==> r[3 * q..][k] == t[3 * q..][k])
      && (|g| == 0 ==> r[3 * q] == v * 4)
      && (|g| == 1 ==> r[3 * q] == t[3 * q] + v / 16 && r[3 * q + 1] == Low(1, v))
      && (|g| == 2 ==> r[3 * q + 1] == t[3 * q + 1] + v / 4 && r[3 * q + 2] == Low(2, v))
      && (|g| == 3 ==> r == t[3 * q + 2 := B2(Value(g[2]), v)])
  {
    hide Value, Encode;
    if |g| == 3 {
      assert t[3 * q..][2] == t[3 * q + 2];
    }
  }

  lemma PartialStep(g: string, t: seq<Byte>, c: char, r: seq<Byte>)
    requires Partial(g, t) && |g| < 3 && Value(c) >= 0 && |r| == |t| > |g|
    requires forall k :: 0 <= k < |g| - 1 ==> r[k] == t[k]
    requires |g| == 0 ==> r[0] == Value(c) * 4
    requires |g| == 1 ==> r[0] == t[0] + Value(c) / 16 && r[1] == Low(1, Value(c))
    requires |g| == 2 ==> r[1] == t[1] + Value(c) / 4 && r[2] == Low(2, Value(c))
    ensures Partial(g + [c], r)
  {
    hide Value;
  }

  // Four letters are the group of the bytes they decode to.
  lemma GroupStep(g: string, c: char)
    requires |g| == 3 && Letters(g) && Value(c) >= 0
    ensures var u, v, w, x := Value(g[0]), Value(g[1]), Value(g[2]), Value(c);
      Group3(B0(u, v), B1(v, w), B2(w, x)) == g + [c]
  {
    hide S0, S1, S2, S3, B0, B1, B2;
    SplitJoin(Value(g[0]), Value(g[1]), Value(g[2]), Value(c));
  }

  /** Data the decoder takes: while it builds a byte from a second or third letter it
      wants room for the next one, so only whole groups can fill the target. */
  predicate Room(d: seq<Byte>, targsize: nat) {
    |d| < targsize || (|d| == targsize && |d| % 3 == 0)
  }

  // `s` is not the encoding of anything there is room for.
  ghost predicate NoEncoding(s: string, targsize: nat) {
    forall d: seq<Byte> :: Room(d, targsize) ==> Encode(d) != s
  }

  lemma StripStep(s: string, i: nat)
    requires i < |s|
    ensures Strip(s[i..]) == (if IsSpace(s[i]) then [] else [s[i]]) + Strip(s[i + 1..])
  {
    assert s[i..][1..] == s[i + 1..];
  }

  // What follows the letters `done` cannot be the rest of an encoding.
  lemma NoEncodingAt(done: string, rest: string, targsize: nat)
    requires forall d: seq<Byte> {:trigger Encode(d)} ::
      Room(d, targsize) && Encode(d) == done + rest ==> |done| < |Encode(d)| && !Shape(d, Encode(d), |done|)
    ensures NoEncoding(done + rest, targsize)
  {
    hide Shape, Encode;
    forall d: seq<Byte> | Room(d, targsize)
      ensures Encode(d) != done + rest
    {
      if Encode(d) == done + rest {
        EncodeShape(d, |done|);
      }
    }
  }

  // The body of the state switch: the bits or-ed in are 0 before.
  method StoreLetter(target: array<Byte>, targsize: nat, tarindex: nat, state: nat, pos: Sextet, ghost done: string)
    requires tarindex == Index(|done|) && state == |done| % 4
    requires targsize <= target.Length && Decoded(done, target[..targsize])
    requires Index(|done|) + (if Spills(|done|) then 1 else 0) < targsize
    modifies target
    ensures target[..targsize] == Stored(done, old(target[..targsize]), pos)
    ensures forall k :: targsize <= k < target.Length ==> target[k] == old(target[k])
  {
    hide Decoded;
    if state == 0 {
      target[tarindex] := pos * 4;
    } else {
      RoomToOr(done, target[..targsize], pos);
      target[tarindex] := target[tarindex] + High(state, pos);
      if Spills(state) {
        target[tarindex + 1] := Low(state, pos);
      }
    }
  }

  // One letter that fits: what has been decoded grows by it.
  method AddLetter(target: array<Byte>, targsize: nat, tarindex: nat, state: nat, ch: char, ghost done: string)
    returns (tarindex': nat, state': nat)
    requires tarindex == Index(|done|) && state == |done| % 4 && Value(ch) >= 0
    requires targsize <= target.Length && Decoded(done, target[..targsize])
    requires tarindex + (if Spills(state) then 1 else 0) < targsize
    modifies target
    ensures tarindex' == Index(|done| + 1) && state' == (|done| + 1) % 4
    ensures Decoded(done + [ch], target[..targsize])
    ensures forall k :: targsize <= k < target.Length ==> target[k] == old(target[k])
  {
    hide Value, Decoded, Stored, Index, Spills;
    IndexStep(|done|);
    DecodedStep(done, target[..targsize], ch);
    StoreLetter(target, targsize, tarindex, state, Value(ch), done);
    tarindex' := if state == 0 then tarindex else tarindex + 1;
    state' := if state == 3 then 0 else state + 1;
  }

  /** The main loop of b64_pton: reads letters up to a pad, the end, or an error. */
  method PtonLetters(src: string, target: array<Byte>, targsize: nat)
    returns (i: nat, tarindex: nat, state: nat, ok: bool, ghost done: string)
    requires 0 as char !in src && targsize <= target.Length
    modifies target
    ensures i <= |src| && state == |done| % 4 && tarindex == Index(|done|)
    ensures Strip(src) == done + Strip(src[i..])
    ensures ok ==> i == |src| || src[i] == PAD
    ensures ok ==> Decoded(done, target[..targsize])
    ensures !ok ==> NoEncoding(Strip(src), targsize)
    ensures forall k :: targsize <= k < target.Length ==> target[k] == old(target[k])
  {
    hide Shape, Encode, Partial, Value, Strip, Decoded, Stored, NoEncoding, Index, Spills;
    assert Index(0) == 0 by { IndexStep(0); }
    i, tarindex, state, ok, done := 0, 0, 0, true, "";
    assert src[0..] == src;
    DecodedNothing(target[..targsize]);
    while i < |src|
      invariant i <= |src| && state == |done| % 4 && tarindex == Index(|done|)
      invariant Strip(src) == done + Strip(src[i..])
      invariant Decoded(done, target[..targsize])
      invariant forall k :: targsize <= k < target.Length ==> target[k] == old(target[k])
    {
      var ch := src[i];
      StripStep(src, i);
      IndexStep(|done|);
      if IsSpace(ch) {
        i := i + 1;
        continue;
      }
      if ch == PAD {
        break;
      }
      var pos := Value(ch);
      var fits := tarindex + (if Spills(state) then 1 else 0) < targsize;
      if pos < 0 || !fits {
        ok := false;
        BadLetter(done, ch, Strip(src[i + 1..]), targsize);
        return;
      }
      tarindex, state := AddLetter(target, targsize, tarindex, state, ch, done);
      done, i := done + [ch], i + 1;
    }
  }

  lemma IndexStep(n: nat)
    ensures Index(0) == 0
    ensures Index(n + 1) == Index(n) + if n % 4 == 0 then 0 else 1
    ensures Spills(n % 4) == Spills(n)
  {
  }

  lemma DecodedNothing(t: seq<Byte>)
    ensures Decoded("", t)
  {
    assert t[..0] == [] && t[0..] == t;
  }

  lemma BadLetter(done: string, c: char, rest: string, targsize: nat)
    requires c != PAD
    requires Value(c) < 0 || Index(|done|) + (if Spills(|done|) then 1 else 0) >= targsize
    ensures NoEncoding(done + ([c] + rest), targsize)
  {
    hide Encode, Value;
    forall d: seq<Byte> | Room(d, targsize) && Encode(d) == done + ([c] + rest)
      ensures |done| < |Encode(d)| && !Shape(d, Encode(d), |done|)
    {
      assert Encode(d)[|done|] == c;
    }
    NoEncodingAt(done, [c] + rest, targsize);
  }

  // ------------------------------------------------------------ padding and end

  // An encoding that goes on with a pad after `done` ends as padding must.
  lemma PaddedEncoding(d: seq<Byte>, done: string, rest: string)
    requires Encode(d) == done + ("=" + rest)
    ensures |done| % 4 == 2 ==> rest == "=" && Value(done[|done| - 1]) % 16 == 0
    ensures |done| % 4 == 3 && done[|done| - 1] != PAD ==> rest == "" && Value(done[|done| - 1]) % 4 == 0
    ensures |done| % 4 >= 2
  {
    hide Encode, Value;
    var e, k := Encode(d), |done|;
    assert e[k] == PAD;
    assert k > 0 ==> e[k - 1] == done[k - 1];
    EncodeShape(d, k);
    if k % 4 == 2 {
      assert |rest| == 1 && rest[0] == e[k + 1];
    } else if k % 4 == 3 {
      assert |rest| == 0;
    }
  }

  // The accepted input is the encoding of the bytes stored.
  lemma PaddedDecoded(done: string, t: seq<Byte>)
    requires Decoded(done, t) && |done| % 4 >= 2
    ensures var n := Index(|done|);
      && n < |t|
      && (t[n] == 0 ==> Encode(t[..n]) == done + (if |done| % 4 == 2 then "==" else "="))
      && (t[n] == 0 <==> Value(done[|done| - 1]) % (if |done| % 4 == 2 then 16 else 4) == 0)
  {
    hide Encode, Value, Partial;
    var q, n := |done| / 4, Index(|done|);
    var g, u := done[4 * q..], t[3 * q..];
    LastByteZero(g, u);
    assert n == 3 * q + (|g| - 1);
    assert g[|g| - 1] == done[|done| - 1] && u[|g| - 1] == t[n];
    if t[n] == 0 {
      var d := t[3 * q..n];
      assert |d| == |g| - 1 && d == u[..|g| - 1];
      assert t[..n] == t[..3 * q] + d;
      EncodeConcat(t[..3 * q], d);
      assert done == done[..4 * q] + g;
      LastGroup(g, d, u);
    }
  }

  // The byte under construction is 0 when the last letter has no bits for it.
  lemma LastByteZero(g: string, u: seq<Byte>)
    requires Partial(g, u) && |g| >= 2
    ensures |g| - 1 < |u| && (u[|g| - 1] == 0 <==> Value(g[|g| - 1]) % (if |g| == 2 then 16 else 4) == 0)
  {
    hide Value;
  }

  lemma LastGroup(g: string, d: seq<Byte>, u: seq<Byte>)
    requires Partial(g, u) && |g| >= 2 && d == u[..|g| - 1] && u[|g| - 1] == 0
    ensures Encode(d) == g + (if |g| == 2 then "==" else "=")
  {
    hide Value, S0, S1, S2, S3;
    EncodeShort(d);
    if |g| == 2 {
      SplitJoin(Value(g[0]), Value(g[1]), 0, 0);
    } else {
      SplitJoin(Value(g[0]), Value(g[1]), Value(g[2]), 0);
    }
  }

  lemma WholeDecoded(done: string, t: seq<Byte>)
    requires Decoded(done, t) && |done| % 4 == 0
    ensures Index(|done|) <= |t| && Encode(t[..Index(|done|)]) == done
  {
    assert done[..|done|] == done;
  }

  // Skips white space.
  method SkipSpaces(src: string, i: nat) returns (j: nat)
    requires i <= |src|
    ensures i <= j <= |src| && Strip(src[i..]) == Strip(src[j..])
    ensures j < |src| ==> !IsSpace(src[j]) && Strip(src[i..]) == [src[j]] + Strip(src[j + 1..])
    ensures j == |src| ==> Strip(src[i..]) == ""
  {
    hide Strip;
    j := i;
    while j < |src| && IsSpace(src[j])
      invariant i <= j <= |src| && Strip(src[i..]) == Strip(src[j..])
    {
      StripStep(src, j);
      j := j + 1;
    }
    if j < |src| {
      StripStep(src, j);
    } else {
      assert src[j..] == "" && Strip("") == "" by { StripNothing(); }
    }
  }

  lemma StripNothing()
    ensures Strip("") == ""
  {
  }

  lemma NotPadded(done: string, rest: string, targsize: nat, d: seq<Byte>)
    requires Encode(d) == done + ("=" + rest) && Letters(done)
    ensures |done| % 4 == 2 ==> rest == "=" && Value(done[|done| - 1]) % 16 == 0
    ensures |done| % 4 == 3 ==> rest == "" && Value(done[|done| - 1]) % 4 == 0
    ensures |done| % 4 >= 2
  {
    hide Encode;
    PaddedEncoding(d, done, rest);
  }

  /** b64_pton with a target: it accepts exactly the encodings, with white space
      anywhere, of data there is room for, and stores the data. */
  method Pton(src: string, target: array<Byte>, targsize: nat) returns (n: int)
    requires 0 as char !in src && targsize <= target.Length
    modifies target
    ensures n == -1 <==> NoEncoding(Strip(src), targsize)
    ensures n != -1 ==> 0 <= n <= targsize && Room(target[..n], targsize) && Encode(target[..n]) == Strip(src)
    ensures forall k :: targsize <= k < target.Length ==> target[k] == old(target[k])
  {
    hide Encode, Value, Strip, Decoded, Letters;
    var i, tarindex, state, ok;
    ghost var done;
    i, tarindex, state, ok, done := PtonLetters(src, target, targsize);
    if !ok {
      return -1;
    }
    ghost var t := target[..targsize];
    ghost var tail := Strip(src[i..]);
    assert Letters(done) by { DecodedLetters(done, t); }
    if i < |src| {
      StripStep(src, i);
      ghost var rest := Strip(src[i + 1..]);
      assert Strip(src) == done + ("=" + rest);
      forall d: seq<Byte> | Encode(d) == Strip(src)
        ensures |done| % 4 >= 2
        ensures |done| % 4 == 2 ==> rest == "=" && Value(done[|done| - 1]) % 16 == 0
        ensures |done| % 4 == 3 ==> rest == "" && Value(done[|done| - 1]) % 4 == 0
      {
        NotPadded(done, rest, targsize, d);
      }
      if state < 2 {
        return -1;
      }
      PaddedDecoded(done, t);
      var j := i + 1;
      if state == 2 {
        j := SkipSpaces(src, j);
        if j == |src| || src[j] != PAD {
          assert rest != "=" by {
            if j < |src| {
              assert rest[0] == src[j];
            }
          }
          return -1;
        }
        j := j + 1;
      }
      ghost var last := Strip(src[j..]);
      assert rest == if state == 2 then "=" + last else last;
      j := SkipSpaces(src, j);
      if j < |src| {
        return -1;
      }
      if target[tarindex] != 0 {
        return -1;
      }
      assert target[..tarindex] == t[..tarindex];
      assert Strip(src) == done + (if state == 2 then "==" else "=");
      return tarindex;
    }
    assert tail == "" by { StripNothing(); assert src[i..] == ""; }
    assert Strip(src) == done;
    if state != 0 {
      forall d: seq<Byte> ensures Encode(d) != done { EncodeLength(d); }
      return -1;
    }
    WholeDecoded(done, t);
    assert target[..tarindex] == t[..tarindex];
    return tarindex;
  }

  lemma DecodedLetters(done: string, t: seq<Byte>)
    requires Decoded(done, t)
    ensures Letters(done)
  {
  }

  // ------------------------------------------------------------------ round trip

  lemma {:induction false} StripConcat(a: string, b: string)
    ensures Strip(a + b) == Strip(a) + Strip(b)
  {
    if a == "" {
      assert a + b == b;
    } else {
      assert (a + b)[1..] == a[1..] + b;
      StripConcat(a[1..], b);
    }
  }

  /** White space inserted at any place disappears again. */
  lemma {:induction false} StripInserted(a: string, w: string, b: string)
    requires forall k :: 0 <= k < |w| ==> IsSpace(w[k])
    ensures Strip(a + w + b) == Strip(a + b)
  {
    if w != "" {
      assert a + w + b == a + [w[0]] + (w[1..] + b);
      StripConcat(a + [w[0]], w[1..] + b);
      StripConcat(a, [w[0]]);
      StripConcat(a, w[1..] + b);
      assert a + w[1..] + b == a + (w[1..] + b);
      assert Strip([w[0]]) == Strip([]);
      StripInserted(a, w[1..], b);
    } else {
      assert a + w + b == a + b;
    }
  }

  lemma {:induction false} StripEncode(d: seq<Byte>)
    ensures Strip(Encode(d)) == Encode(d)
  {
    hide Letter, S0, S1, S2, S3;
    if |d| < 3 {
      EncodeShort(d);
      if d != [] {
        StripVisible(Encode(d));
      }
    } else {
      var g := Group3(d[0], d[1], d[2]);
      StripVisible(g);
      StripConcat(g, Encode(d[3..]));
      StripEncode(d[3..]);
    }
  }

  lemma {:induction false} StripVisible(s: string)
    requires forall k :: 0 <= k < |s| ==> !IsSpace(s[k])
    ensures Strip(s) == s
  {
    if s != "" {
      StripVisible(s[1..]);
    }
  }

  /** Decoding an encoding, white space added or not, gives the data back exactly
      when the target has room for it. */
  method RoundTrip(data: seq<Byte>, text: string, target: array<Byte>) returns (n: int)
    requires 0 as char !in text && Strip(text) == Strip(Encode(data))
    modifies target
    ensures Room(data, target.Length) ==> n == |data| && target[..n] == data
    ensures !Room(data, target.Length) ==> n == -1
  {
    hide Encode, Strip;
    StripEncode(data);
    n := Pton(text, target, target.Length);
    if n != -1 {
      EncodeInjective(target[..n], data);
    }
  }
}
