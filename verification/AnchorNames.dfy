/** How a rule names the anchor it calls: parsing the name relative to the
    rule's ruleset, printing it, and the tree of anchor paths behind it. */
module AnchorNames {
  import opened Options

  const MAXPATHLEN := 1024
  const PF_ANCHOR_NAME_SIZE := 64

  // --------------------------------------------------------------------- strings

  // strrchr(s, '/'), -1 if there is none.
  function LastSlash(s: string): (k: int)
    ensures -1 <= k < |s| && (k >= 0 ==> s[k] == '/')
    ensures forall j :: k < j < |s| ==> s[j] != '/'
  {
    if s == "" then -1
    else if s[|s| - 1] == '/' then |s| - 1 else LastSlash(s[..|s| - 1])
  }

  // strchr(s + k, '/'), the length if there is none.
  function NextSlash(s: string, k: nat): (j: nat)
    requires k <= |s|
    ensures k <= j <= |s| && (j < |s| ==> s[j] == '/')
    ensures forall i :: k <= i < j ==> s[i] != '/'
    decreases |s| - k
  {
    if k == |s| || s[k] == '/' then k else NextSlash(s, k + 1)
  }

  // The path without its last component.
  function Up(path: string): string {
    if LastSlash(path) >= 0 then path[..LastSlash(path)] else ""
  }

  function SkipSlashes(path: string): (p: string)
    ensures p == "" || p[0] != '/'
  {
    if path != "" && path[0] == '/' then SkipSlashes(path[1..]) else path
  }

  predicate EndsWith(s: string, t: string) {
    |t| <= |s| && s[|s| - |t|..] == t
  }

  predicate IsDots(s: string) { "../" <= s }

  // -------------------------------------------------------------------- parsing

  /** What pf_anchor_setup makes of a name before it looks the path up:
      `rel` is anchor_relative, 0 for an absolute name. */
  datatype Parsed = Parsed(full: string, wildcard: bool, rel: nat)

  // The loop over leading "../"; fails above the root.
  function Climb(path: string, name: string, rel: nat): Option<(string, string, nat)>
    decreases |name|
  {
    if !IsDots(name) then Some((path, name, rel))
    else if path == "" then None
    else Climb(Up(path), name[3..], rel + 1)
  }

  function Under(base: string, name: string): string {
    if base == "" then name else base + "/" + name
  }

  function SplitWildcard(full: string, rel: nat): Parsed {
    if EndsWith(full, "/*") then Parsed(full[..|full| - 2], true, rel) else Parsed(full, false, rel)
  }

  function Parse(rs: string, name: string): Option<Parsed>
    requires name != ""
  {
    if name[0] == '/' then Some(SplitWildcard(name[1..], 0))
    else match Climb(rs, name, 1)
      case None => None
      case Some((base, rest, rel)) => Some(SplitWildcard(Under(base, rest), rel))
  }

  // ------------------------------------------------------------------- printing

  /** The anchor fields of a rule. */
  datatype Target = Target(path: string, wildcard: bool, rel: nat)

  function Ups(path: string, n: nat): string
    decreases n
  {
    if n == 0 then path else Ups(Up(path), n - 1)
  }

  function Dots(n: nat): string {
    if n == 0 then "" else "../" + Dots(n - 1)
  }

  // The ruleset a relative name starts from.
  function Base(rs: string, t: Target): string {
    if t.rel == 0 then "" else Ups(rs, t.rel - 1)
  }

  // pf_anchor_copyout; None for its error return.
  function Print(rs: string, t: Target): Option<string> {
    var a := Base(rs, t);
    if t.rel == 0 then Some("/" + t.path + if t.wildcard then "/*" else "")
    else if !(a <= t.path) then None
    else
      var call := Dots(t.rel - 1) + if |t.path| > |a| then t.path[if a == "" then 0 else |a| + 1..] else "";
      Some(call + if !t.wildcard then "" else if call != "" then "/*" else "*")
  }

  // ---------------------------------------------------------------- well-formed

  /** An anchor path: components that are not empty, with single slashes between. */
  ghost predicate IsPath(p: string) {
    && p != "" && p[0] != '/' && p[|p| - 1] != '/'
    && forall k :: 0 < k < |p| && p[k] == '/' ==> p[k - 1] != '/'
  }

  /** The rule `t` can stand in ruleset `rs`: it climbs no higher than the root
      and its anchor is below where it climbs to, or is that place's wildcard. */
  ghost predicate Fits(rs: string, t: Target) {
    && IsPath(t.path) && (rs == "" || IsPath(rs))
    && (t.rel >= 2 ==> Ups(rs, t.rel - 2) != "")
    && (t.rel >= 1 ==>
          var a := Base(rs, t);
          a == "" || (t.path == a && t.wildcard) || (a + "/" <= t.path && |t.path| > |a| + 1))
    && (t.rel == 1 && Base(rs, t) == "" ==> !IsDots(t.path + if t.wildcard then "/*" else ""))
    && (t.rel >= 1 && Base(rs, t) != "" && t.path != Base(rs, t) ==>
          !IsDots(t.path[|Base(rs, t)| + 1..] + if t.wildcard then "/*" else ""))
  }

  /** When the printed name reads back: not a wildcard on an ancestor, not a
      climb to the root into an anchor called "..", not a plain "*". */
  ghost predicate Printable(rs: string, t: Target) {
    && !(t.rel >= 2 && t.wildcard && t.path == Base(rs, t))
    && !(t.rel >= 2 && Base(rs, t) == "" && IsDots(t.path + if t.wildcard then "/*" else ""))
    && !(!t.wildcard && EndsWith(t.path, "/*"))
  }

  /** Reading `text` in ruleset `rs` leads to `t`. */
  ghost predicate Resolves(rs: string, text: string, t: Target) {
    text != "" && Parse(rs, text).Some? &&
    var p := Parse(rs, text).value;
    SkipSlashes(p.full) == t.path && p.wildcard == t.wildcard && p.rel == t.rel
  }

  lemma {:induction false} ClimbDots(rs: string, n: nat, rest: string, rel: nat)
    ensures n > 0 && Ups(rs, n - 1) == "" ==> Climb(rs, Dots(n) + rest, rel) == None
    ensures (n == 0 || Ups(rs, n - 1) != "") ==>
      Climb(rs, Dots(n) + rest, rel) == Climb(Ups(rs, n), rest, rel + n)
    decreases n
  {
    if n == 0 {
      assert Dots(0) + rest == rest;
    } else {
      assert Dots(n) + rest == "../" + (Dots(n - 1) + rest);
      assert (Dots(n) + rest)[3..] == Dots(n - 1) + rest;
      if rs == "" {
        UpsEmpty(n - 1);
      } else {
        ClimbDots(Up(rs), n - 1, rest, rel + 1);
      }
    }
  }

  lemma {:induction false} UpsEmpty(n: nat)
    ensures Ups("", n) == ""
  {
    if n > 0 {
      UpsEmpty(n - 1);
    }
  }

  lemma SplitPrinted(path: string, wildcard: bool, rel: nat)
    requires IsPath(path)
    ensures var p := SplitWildcard(path + if wildcard then "/*" else "", rel);
      (p.full == path && p.wildcard == wildcard && SkipSlashes(path) == path) ||
      (!wildcard && EndsWith(path, "/*") && p.wildcard)
    ensures !wildcard && EndsWith(path, "/*") ==> SplitWildcard(path, rel).wildcard
  {
  }

  // Reading a relative name that was printed: climb, then split what is left.
  lemma ReadsBack(rs: string, n: nat, rest: string)
    requires n == 0 || Ups(rs, n - 1) != ""
    requires rest != "" && (n == 0 ==> rest[0] != '/')
    ensures Parse(rs, Dots(n) + rest) ==
      match Climb(Ups(rs, n), rest, n + 1)
      case None => None
      case Some((base, name, rel)) => Some(SplitWildcard(Under(base, name), rel))
  {
    hide Climb, Ups, Dots, SplitWildcard, Under;
    ClimbDots(rs, n, rest, 1);
    DotsFirst(n, rest);
  }

  lemma UpsZero(rs: string)
    ensures Ups(rs, 0) == rs
  {
  }

  lemma DotsFirst(n: nat, rest: string)
    requires rest != ""
    ensures (Dots(n) + rest)[0] == if n == 0 then rest[0] else '.'
    ensures Dots(n) == "" <==> n == 0
  {
  }

  lemma ClimbDone(a: string, rest: string, rel: nat)
    requires !IsDots(rest)
    ensures Climb(a, rest, rel) == Some((a, rest, rel))
  {
  }

  function Suffix(t: Target): string {
    if t.wildcard then "/*" else ""
  }

  lemma AbsoluteReadsBack(rs: string, t: Target)
    requires Fits(rs, t) && t.rel == 0
    ensures Print(rs, t) == Some("/" + t.path + Suffix(t))
    ensures Resolves(rs, Print(rs, t).value, t) <==> !(!t.wildcard && EndsWith(t.path, "/*"))
  {
    hide IsPath, EndsWith;
    assert ("/" + t.path + Suffix(t))[1..] == t.path + Suffix(t);
    SplitPrinted(t.path, t.wildcard, 0);
    assert t.path + "" == t.path;
  }

  lemma RootReadsBack(rs: string, t: Target)
    requires Fits(rs, t) && t.rel >= 1 && Base(rs, t) == ""
    ensures Print(rs, t) == Some(Dots(t.rel - 1) + (t.path + Suffix(t)))
    ensures Resolves(rs, Print(rs, t).value, t) <==>
      !IsDots(t.path + Suffix(t)) && !(!t.wildcard && EndsWith(t.path, "/*"))
  {
    hide EndsWith;
    var rest := t.path + Suffix(t);
    SplitPrinted(t.path, t.wildcard, t.rel);
    assert t.path[0..] == t.path && t.path + "" == t.path;
    assert Print(rs, t).value == Dots(t.rel - 1) + rest;
    ReadsBack(rs, t.rel - 1, rest);
    assert Climb("", rest, t.rel) == if IsDots(rest) then None else Some(("", rest, t.rel));
  }

  lemma BelowReadsBack(rs: string, t: Target)
    requires Fits(rs, t) && t.rel >= 1 && Base(rs, t) != "" && t.path != Base(rs, t)
    ensures Print(rs, t) == Some(Dots(t.rel - 1) + (t.path[|Base(rs, t)| + 1..] + Suffix(t)))
    ensures Resolves(rs, Print(rs, t).value, t) <==> !(!t.wildcard && EndsWith(t.path, "/*"))
  {
    hide EndsWith, Climb, Ups, Dots, Parse, SplitWildcard, Under, IsPath;
    var a := Base(rs, t);
    var rest := t.path[|a| + 1..] + Suffix(t);
    SplitPrinted(t.path, t.wildcard, t.rel);
    RestOfPath(rs, t);
    PrintBelow(rs, t);
    assert Print(rs, t).value == Dots(t.rel - 1) + rest;
    ReadsBack(rs, t.rel - 1, rest);
    ClimbDone(a, rest, t.rel);
    UnderSomething(a, rest);
    SplitKeepsRel(t.path + Suffix(t), t.rel);
    assert |Dots(t.rel - 1) + rest| > 0;
    assert Parse(rs, Dots(t.rel - 1) + rest) == Some(SplitWildcard(t.path + Suffix(t), t.rel));
  }

  lemma PrintBelow(rs: string, t: Target)
    requires Fits(rs, t) && t.rel >= 1 && Base(rs, t) != "" && t.path != Base(rs, t)
    ensures Print(rs, t) == Some(Dots(t.rel - 1) + (t.path[|Base(rs, t)| + 1..] + Suffix(t)))
  {
    hide EndsWith, Climb, Ups, Dots, IsPath;
    RestOfPath(rs, t);
    var d, x := Dots(t.rel - 1), t.path[|Base(rs, t)| + 1..];
    assert |d + x| > 0;
    assert d + x + Suffix(t) == d + (x + Suffix(t));
  }

  // What follows the base in the path of an anchor below it.
  lemma RestOfPath(rs: string, t: Target)
    requires Fits(rs, t) && t.rel >= 1 && Base(rs, t) != "" && t.path != Base(rs, t)
    ensures var a := Base(rs, t);
      && |a| + 1 < |t.path| && a + "/" + (t.path[|a| + 1..] + Suffix(t)) == t.path + Suffix(t)
      && t.path[|a| + 1] != '/' && t.path[|a| + 1..] != ""
      && !IsDots(t.path[|a| + 1..] + Suffix(t))
    ensures t.path + "" == t.path
  {
    hide EndsWith, Climb, Ups, Dots;
    var a := Base(rs, t);
    assert t.path[(|a| + 1) - 1] == (a + "/")[|a|] == '/';
  }

  /** Printing a rule's anchor never fails, and reading the printed name in the
      same ruleset gives the same anchor, wildcard and depth if and only if the
      rule is printable. */
  lemma PrintReadsBackExactly(rs: string, t: Target)
    requires Fits(rs, t)
    ensures Print(rs, t).Some?
    ensures Resolves(rs, Print(rs, t).value, t) <==> Printable(rs, t)
  {
    if t.rel == 0 {
      AbsoluteReadsBack(rs, t);
    } else if Base(rs, t) == "" {
      RootReadsBack(rs, t);
    } else if t.path == Base(rs, t) {
      AncestorWildcard(rs, t);
    } else {
      BelowReadsBack(rs, t);
    }
  }

  lemma AncestorWildcard(rs: string, t: Target)
    requires Fits(rs, t) && t.rel >= 1 && t.path == Base(rs, t) && t.wildcard
    ensures Print(rs, t).Some?
    ensures Resolves(rs, Print(rs, t).value, t) <==> t.rel == 1
  {
    hide Climb, Ups, Dots;
    var a := t.path;
    if t.rel == 1 {
      UpsZero(rs);
      DotsFirst(0, "*");
      assert Print(rs, t).value == Dots(0) + "*";
      ReadsBack(rs, 0, "*");
      ClimbDone(a, "*", 1);
      SplitPrinted(a, true, 1);
      assert a + "/" + "*" == a + "/*";
    } else {
      DotsFirst(t.rel - 1, "/*");
      assert Dots(t.rel - 1) != "";
      assert Print(rs, t).value == Dots(t.rel - 1) + "/*";
      ReadsBack(rs, t.rel - 1, "/*");
      ClimbDone(a, "/*", t.rel);
      var full := a + "/" + "/*";
      assert full[..|full| - 2] == a + "/" && full[|full| - 2..] == "/*";
      assert SkipSlashes(a + "/") == a + "/" by { assert (a + "/")[0] == a[0]; }
      assert |a + "/"| != |a|;
    }
  }

  // ------------------------------------------------------------- what a name means

  // The components of a path, split at its slashes.
  function Components(path: string): seq<string>
    decreases |path|
  {
    if path == "" then []
    else
      var k := LastSlash(path);
      if k < 0 then [path] else Components(path[..k]) + [path[k + 1..]]
  }

  lemma UpComponents(path: string)
    requires path != ""
    ensures Components(path) != [] && Components(Up(path)) == Components(path)[..|Components(path)| - 1]
  {
  }

  lemma {:induction false} UpsComponents(path: string, n: nat)
    ensures var c := Components(path);
      Components(Ups(path, n)) == if n <= |c| then c[..|c| - n] else []
    ensures Ups(path, n) == "" <==> n >= |Components(path)|
    decreases n
  {
    if n > 0 {
      if path == "" {
        UpsEmpty(n);
      } else {
        UpComponents(path);
        UpsComponents(Up(path), n - 1);
      }
    }
  }

  lemma LastSlashIs(s: string, k: int)
    requires -1 <= k < |s| && (k >= 0 ==> s[k] == '/') && forall j :: k < j < |s| ==> s[j] != '/'
    ensures LastSlash(s) == k
  {
  }

  lemma LastComponent(path: string, k: nat)
    requires path != "" && LastSlash(path) == k
    ensures Components(path) == Components(path[..k]) + [path[k + 1..]]
  {
    hide LastSlash;
  }

  lemma SplitAt(path: string, k: nat)
    requires k < |path| && path[k] == '/' && forall j :: k < j < |path| ==> path[j] != '/'
    ensures Components(path) == Components(path[..k]) + [path[k + 1..]]
  {
    hide LastSlash, Components;
    LastSlashIs(path, k);
    LastComponent(path, k);
  }

  lemma OneComponent(path: string)
    requires path != "" && forall j :: 0 <= j < |path| ==> path[j] != '/'
    ensures Components(path) == [path]
  {
    LastSlashIs(path, -1);
  }

  // Components of one path below another.
  lemma {:induction false} UnderComponents(base: string, name: string)
    requires name != "" && name[0] != '/'
    ensures Components(Under(base, name)) == Components(base) + Components(name)
    decreases |name|
  {
    hide Components, LastSlash;
    if base != "" {
      var k := LastSlash(name);
      var full := base + "/" + name;
      if k < 0 {
        SplitAt(full, |base|);
        OneComponent(name);
        assert full[..|base|] == base && full[|base| + 1..] == name;
      } else {
        var cut := |base| + 1 + k;
        assert forall j :: cut < j < |full| ==> full[j] == name[j - |base| - 1];
        SplitAt(full, cut);
        SplitAt(name, k);
        assert full[..cut] == base + "/" + name[..k] && full[cut + 1..] == name[k + 1..];
        UnderComponents(base, name[..k]);
      }
    } else {
      NoComponents();
    }
  }

  lemma NoComponents()
    ensures Components("") == []
  {
  }

  lemma SuffixSplit(full: string, wildcard: bool, rel: nat)
    requires !wildcard ==> !EndsWith(full, "/*")
    ensures SplitWildcard(full + if wildcard then "/*" else "", rel) == Parsed(full, wildcard, rel)
  {
    if wildcard {
      assert (full + "/*")[|full|..] == "/*";
    } else {
      assert full + "" == full;
    }
  }

  // A name below a path ends like the name.
  lemma UnderEnds(base: string, name: string)
    requires name != "" && name != "*" && !EndsWith(name, "/*")
    ensures !EndsWith(Under(base, name), "/*")
  {
    if base != "" {
      var full := base + "/" + name;
      if |name| >= 2 {
        assert full[|full| - 2..] == name[|name| - 2..];
      } else {
        assert full[|full| - 2..] == "/" + name;
        assert name == [name[0]] && ("/" + name)[1] == name[0];
      }
    }
  }

  /** What a relative name means, in components: each leading "../" goes up one from the
      rule's ruleset, what follows is found below there, and a final slash and star is a
      wildcard. It means nothing if it goes up further than the root. */
  lemma RelativeNameMeans(rs: string, n: nat, rest: string, wildcard: bool)
    requires rest != "" && rest[0] != '/' && !IsDots(rest + if wildcard then "/*" else "")
    requires !wildcard ==> rest != "*" && !EndsWith(rest, "/*")
    ensures var p := Parse(rs, Dots(n) + (rest + if wildcard then "/*" else ""));
      && (p == None <==> n > |Components(rs)|)
      && (p != None ==>
            && Components(p.value.full) == Components(rs)[..|Components(rs)| - n] + Components(rest)
            && p.value.wildcard == wildcard && p.value.rel == n + 1)
  {
    hide Climb, Ups, Dots, SplitWildcard, Under, Components, EndsWith, IsDots;
    var text := rest + if wildcard then "/*" else "";
    DotsFirst(n, text);
    UpsComponents(rs, n);
    if n > |Components(rs)| {
      UpsComponents(rs, n - 1);
      ClimbDots(rs, n, text, 1);
    } else {
      if n > 0 {
        UpsComponents(rs, n - 1);
      }
      var base := Ups(rs, n);
      ReadsBack(rs, n, text);
      ClimbDone(base, text, n + 1);
      UnderComponents(base, rest);
      if !wildcard {
        UnderEnds(base, rest);
      }
      SuffixSplit(Under(base, rest), wildcard, n + 1);
      UnderText(base, rest, if wildcard then "/*" else "");
    }
  }

  lemma UnderText(base: string, rest: string, suffix: string)
    ensures Under(base, rest + suffix) == Under(base, rest) + suffix
  {
    if base != "" {
      assert base + "/" + (rest + suffix) == base + "/" + rest + suffix;
    }
  }

  /** An absolute name means the path after its slash, whatever the ruleset. */
  lemma AbsoluteNameMeans(rs: string, path: string, wildcard: bool)
    requires !wildcard ==> !EndsWith(path, "/*")
    ensures Parse(rs, "/" + (path + if wildcard then "/*" else "")) == Some(Parsed(path, wildcard, 0))
  {
    hide EndsWith;
    var text := path + if wildcard then "/*" else "";
    assert ("/" + text)[1..] == text;
    SuffixSplit(path, wildcard, 0);
  }

  /** A star alone is the wildcard of the place it goes up to, unless that is the root,
      where it is a name. */
  lemma StarMeans(rs: string, n: nat)
    requires n <= |Components(rs)|
    ensures var p := Parse(rs, Dots(n) + "*");
      if n < |Components(rs)| then
        p != None && p.value.wildcard && p.value.rel == n + 1 &&
        Components(p.value.full) == Components(rs)[..|Components(rs)| - n]
      else p == Some(Parsed("*", false, n + 1))
  {
    hide Climb, Ups, Dots, Components, EndsWith, SplitWildcard;
    UpsComponents(rs, n);
    if n > 0 {
      UpsComponents(rs, n - 1);
    }
    var base := Ups(rs, n);
    ReadsBack(rs, n, "*");
    ClimbDone(base, "*", n + 1);
    if base != "" {
      assert base + "/" + "*" == base + "/*";
      SuffixSplit(base, true, n + 1);
    } else {
      StarIsNoWildcard();
      SuffixSplit("*", false, n + 1);
      assert "*" + "" == "*";
    }
  }

  lemma StarIsNoWildcard()
    ensures !EndsWith("*", "/*")
  {
  }

  // ---------------------------------------------------------------- anchor paths

  datatype Anchor = Anchor(name: string, path: string, parent: Option<string>, refs: nat)

  predicate IsName(s: string) {
    0 < |s| < PF_ANCHOR_NAME_SIZE && '/' !in s
  }

  function ParentPath(a: Anchor): string {
    if a.parent.Some? then a.parent.value else ""
  }

  /** Every anchor is found under its path, and its path is its parent's path, a
      slash and its name. */
  ghost predicate StoreOk(m: map<string, Anchor>) {
    forall p :: p in m ==>
      && m[p].path == p == Under(ParentPath(m[p]), m[p].name) && IsName(m[p].name)
      && (m[p].parent.Some? ==> m[p].parent.value in m)
      && p != ""
  }

  lemma {:induction false} StorePath(m: map<string, Anchor>, p: string)
    requires StoreOk(m) && p in m
    ensures IsPath(p)
    decreases |p|
  {
    if m[p].parent.Some? {
      StorePath(m, m[p].parent.value);
    }
  }

  lemma NoSlashFrom(s: string, j: nat)
    requires j <= |s| && '/' !in s[j..]
    ensures forall k :: j <= k < |s| ==> s[k] != '/'
  {
  }

  /** With a path, all paths above it are there. */
  lemma {:induction false} StorePrefix(m: map<string, Anchor>, p: string, k: nat)
    requires StoreOk(m) && p in m && k < |p| && p[k] == '/'
    ensures p[..k] in m
    decreases |p|
  {
    var a := m[p];
    if a.parent.Some? {
      var q := a.parent.value;
      if k < |q| {
        assert p[..k] == q[..k];
        StorePrefix(m, q, k);
      } else {
        assert p[|q| + 1..] == a.name;
        NoSlashFrom(p, |q| + 1);
        assert p[..k] == q;
      }
    }
  }

  lemma {:induction false} StoreUps(m: map<string, Anchor>, rs: string, n: nat)
    requires StoreOk(m) && (rs == "" || rs in m)
    ensures Ups(rs, n) == "" || Ups(rs, n) in m
    decreases n
  {
    if n > 0 {
      if LastSlash(rs) >= 0 {
        StorePrefix(m, rs, LastSlash(rs));
        StorePath(m, rs);
      }
      StoreUps(m, Up(rs), n - 1);
    }
  }

  // All components of `path` from `k` on are names, and no parent is too long.
  ghost predicate Creatable(path: string, k: nat)
    requires k <= |path|
    decreases |path| - k
  {
    k < |path| && |path| < MAXPATHLEN - PF_ANCHOR_NAME_SIZE - 1 &&
    var j := NextSlash(path, k);
    IsName(path[k..j]) && (j == |path| || Creatable(path, j + 1))
  }

  class AnchorStore {
    var anchors: map<string, Anchor>

    constructor ()
      ensures anchors == map[]
    {
      anchors := map[];
    }

    // The longest path above `path` that has an anchor.
    method FindParent(path: string) returns (parent: Option<string>)
      requires StoreOk(anchors)
      ensures parent.Some? ==> parent.value in anchors && parent.value + "/" <= path
      ensures forall j :: (if parent.Some? then |parent.value| + 1 else 0) <= j < |path| && path[j] == '/' ==>
        path[..j] !in anchors
    {
      hide LastSlash, StoreOk;
      var n: nat := |path|;
      parent := None;
      while LastSlash(path[..n]) >= 0
        invariant n <= |path|
        invariant forall j :: n <= j < |path| && path[j] == '/' ==> path[..j] !in anchors
        decreases n
      {
        var q := LastSlash(path[..n]);
        assert path[..n][..q] == path[..q];
        if path[..q] in anchors {
          parent := Some(path[..q]);
          return;
        }
        n := q;
      }
    }

    /** pf_find_or_create_ruleset. `memory` is the number of anchors there is
        memory for. Some("") is the main ruleset, None the error return. */
    method FindOrCreate(path0: string, memory: nat) returns (found: Option<string>)
      requires StoreOk(anchors)
      modifies this
      ensures StoreOk(anchors) && Extends(old(anchors), anchors, SkipSlashes(path0))
      ensures SkipSlashes(path0) == "" || SkipSlashes(path0) in old(anchors) ==>
        found == Some(SkipSlashes(path0)) && anchors == old(anchors)
      ensures found.Some? && SkipSlashes(path0) != "" ==>
        found.value in anchors && Reached(old(anchors), found.value, SkipSlashes(path0))
      ensures SkipSlashes(path0) != "" && Creatable(SkipSlashes(path0), 0) && memory >= |path0| ==>
        found == Some(SkipSlashes(path0))
    {
      hide Creatable, StoreOk, Extends, Ready, IsName, Under;
      Unextended(anchors, SkipSlashes(path0));
      var path := SkipSlashes(path0);
      SkipSlashesLength(path0);
      if path == "" || path in anchors {
        return Some(path);
      }
      var parent := FindParent(path);
      assert Ready(anchors, path, if parent.Some? then |parent.value| + 1 else 0, parent) by {
        ReadyAtStart(anchors, path, parent);
      }
      var q := if parent.Some? then |parent.value| + 1 else 0;
      CreatableFrom(path, q);
      if q == |path| {
        return None;
      }
      var left := memory;
      while q < |path|
        invariant q <= |path| && StoreOk(anchors) && Extends(old(anchors), anchors, path)
        invariant q < |path| ==> Ready(anchors, path, q, parent)
        invariant q < |path| && Creatable(path, 0) ==> Creatable(path, q)
        invariant q == |path| ==>
          parent.Some? && parent.value in anchors && Reached(old(anchors), parent.value, path)
        invariant q == |path| && Creatable(path, 0) ==> parent.value == path
        invariant left + q >= memory
        decreases |path| - q
      {
        var r := NextSlash(path, q);
        var name := path[q..r];
        if Creatable(path, q) {
          CreatableStep(path, q);
        }
        assert parent.Some? ==> |parent.value| < |path| by { ParentIsShort(anchors, path, q, parent); }
        if !IsName(name) || (parent.Some? && |parent.value| >= MAXPATHLEN - PF_ANCHOR_NAME_SIZE - 1) {
          return None;
        }
        if left == 0 {
          return None;
        }
        var anchor := Anchor(name, Under(if parent.Some? then parent.value else "", name), parent, 0);
        Descend(old(anchors), anchors, path, q, parent, anchor);
        anchors := anchors[anchor.path := anchor];
        left, parent := left - 1, Some(anchor.path);
        q := if r < |path| then r + 1 else r;
      }
      return parent;
    }

    /** pf_anchor_setup for a rule of ruleset `rs` ("" is the main one). Without an
        error the rule's anchor exists, can stand in `rs`, and has one reference
        more; no other anchor changes. */
    method AnchorSetup(rs: string, name: string, memory: nat) returns (err: bool, t: Option<Target>)
      requires StoreOk(anchors) && (rs == "" || rs in anchors)
      modifies this
      ensures StoreOk(anchors) && (err ==> t == None)
      ensures forall p :: p in old(anchors) ==> p in anchors
      ensures forall p :: p in old(anchors) ==>
        anchors[p] == old(anchors)[p].(refs := old(anchors)[p].refs + if t.Some? && p == t.value.path then 1 else 0)
      ensures t.Some? ==> t.value.path in anchors && Fits(rs, t.value) && anchors[t.value.path].refs > 0
      ensures name == "" ==> !err && t == None && anchors == old(anchors)
      ensures forall u: Target :: u.path in old(anchors) ==> (t == Some(u) <==> Resolves(rs, name, u))
    {
      hide StoreOk, Climb, Fits, IsPath, SkipSlashes, SplitWildcard, Under, Up;
      NoEmptyPath(anchors);
      if name == "" {
        return false, None;
      }
      var rel: nat, path, rest := 0, "", name[1..];
      if name[0] != '/' {
        rel, path, rest := 1, rs, name;
        while IsDots(rest)
          invariant Climb(rs, name, 1) == Climb(path, rest, rel) && rel >= 1
          invariant anchors == old(anchors)
          decreases |rest|
        {
          ClimbOnce(path, rest, rel);
          if path == "" {
            return true, None;
          }
          path, rest, rel := Up(path), rest[3..], rel + 1;
        }
        ClimbDone(path, rest, rel);
        rest := Under(path, rest);
      }
      SplitKeepsRel(rest, rel);
      var p := SplitWildcard(rest, rel);
      assert Parse(rs, name) == Some(p);
      var found := FindOrCreate(p.full, memory);
      NoEmptyPath(anchors);
      if found == None || found.value == "" {
        return true, None;
      }
      var a := anchors[found.value];
      t := Some(Target(found.value, p.wildcard, rel));
      StorePath(anchors, found.value);
      SetupFits(old(anchors), rs, name, p, found.value);
      MoreRefs(anchors, found.value);
      anchors := anchors[found.value := a.(refs := a.refs + 1)];
      return false, t;
    }

    /** pf_anchor_copyout, then pf_anchor_setup on what it printed. */
    method Reload(rs: string, t: Target, memory: nat) returns (again: Option<Target>)
      requires StoreOk(anchors) && (rs == "" || rs in anchors)
      requires Fits(rs, t) && t.path in anchors
      modifies this
      ensures StoreOk(anchors)
      ensures again == Some(t) <==> Printable(rs, t)
    {
      hide StoreOk, Fits, Printable, Resolves, Print;
      PrintReadsBackExactly(rs, t);
      var text := Print(rs, t).value;
      var err;
      err, again := AnchorSetup(rs, text, memory);
    }
  }

  // Anchors were only added, and only on the way to `path`.
  ghost predicate Extends(m: map<string, Anchor>, n: map<string, Anchor>, path: string) {
    && (forall p :: p in m ==> p in n && n[p] == m[p])
    && (forall p :: p in n && p !in m ==> p == path || p + "/" <= path)
  }

  // The anchor of `path`; for a path with a slash at the end, a new anchor.
  ghost predicate Reached(m: map<string, Anchor>, k: string, path: string) {
    k == path || (k + "/" == path && k !in m)
  }

  // Before the component at q: the parent is there, nothing below it is.
  ghost predicate Ready(m: map<string, Anchor>, path: string, q: nat, parent: Option<string>)
    requires q <= |path|
  {
    && (parent == None ==> q == 0)
    && (parent.Some? ==> parent.value in m && parent.value != "" && parent.value + "/" == path[..q])
    && path !in m
    && forall j :: q <= j < |path| && path[j] == '/' ==> path[..j] !in m
  }

  lemma Unextended(m: map<string, Anchor>, path: string)
    ensures Extends(m, m, path)
  {
  }

  lemma ReadyAtStart(m: map<string, Anchor>, path: string, parent: Option<string>)
    requires StoreOk(m) && path !in m && path != ""
    requires parent.Some? ==> parent.value in m && parent.value + "/" <= path
    requires forall j :: (if parent.Some? then |parent.value| + 1 else 0) <= j < |path| && path[j] == '/' ==>
      path[..j] !in m
    ensures Ready(m, path, if parent.Some? then |parent.value| + 1 else 0, parent)
  {
  }

  lemma ParentIsShort(m: map<string, Anchor>, path: string, q: nat, parent: Option<string>)
    requires q <= |path| && Ready(m, path, q, parent)
    ensures parent.Some? ==> |parent.value| < |path|
  {
  }

  // One component more: where the new anchor's path ends.
  lemma NextPath(m: map<string, Anchor>, path: string, q: nat, parent: Option<string>, name: string)
    requires q < |path| && Ready(m, path, q, parent) && name == path[q..NextSlash(path, q)]
    ensures var r := NextSlash(path, q);
      && Under(if parent.Some? then parent.value else "", name) == path[..r] && path[..r] !in m
      && (r == |path| ==> path[..r] == path)
      && (r < |path| ==> path[..r] + "/" == path[..r + 1])
  {
    var r := NextSlash(path, q);
    assert path[..q] + path[q..r] == path[..r];
    assert r == |path| ==> path[..r] == path;
  }

  // From before a component to before the next one, or to the end.
  lemma Descend(m0: map<string, Anchor>, m: map<string, Anchor>, path: string, q: nat, parent: Option<string>,
                a: Anchor)
    requires q < |path| && StoreOk(m) && Extends(m0, m, path) && Ready(m, path, q, parent)
    requires a.name == path[q..NextSlash(path, q)] && IsName(a.name) && a.parent == parent
    requires a.path == Under(if parent.Some? then parent.value else "", a.name)
    ensures var r := NextSlash(path, q);
      var n := m[a.path := a];
      && StoreOk(n) && Extends(m0, n, path)
      && (r + 1 < |path| ==> Ready(n, path, r + 1, Some(a.path)))
      && (r + 1 >= |path| ==> Reached(m0, a.path, path))
      && (r == |path| ==> a.path == path)
  {
    hide StoreOk, Under, NextSlash, IsName;
    var r := NextSlash(path, q);
    NextPath(m, path, q, parent, a.name);
    var n := m[a.path := a];
    assert StoreOk(n) by { AddAnchor(m, a); }
    if r < |path| {
      assert a.path + "/" <= path;
      forall j | r + 1 <= j < |path| && path[j] == '/'
        ensures path[..j] !in n
      {
        assert |path[..j]| != |a.path|;
      }
      if r + 1 == |path| {
        assert path[..r + 1] == path;
      }
    }
    assert a.path != "" by { NameNotEmpty(parent, a.name); }
  }

  lemma NameNotEmpty(parent: Option<string>, name: string)
    requires IsName(name)
    ensures Under(if parent.Some? then parent.value else "", name) != ""
  {
  }

  lemma AddAnchor(m: map<string, Anchor>, a: Anchor)
    requires StoreOk(m) && a.path !in m && IsName(a.name) && a.path == Under(ParentPath(a), a.name)
    requires a.parent.Some? ==> a.parent.value in m
    ensures StoreOk(m[a.path := a])
  {
  }

  lemma {:induction false} SkipSlashesLength(path: string)
    ensures |SkipSlashes(path)| <= |path|
  {
    if path != "" && path[0] == '/' {
      SkipSlashesLength(path[1..]);
    }
  }

  lemma CreatableStep(path: string, q: nat)
    requires q <= |path| && Creatable(path, q)
    ensures q < |path| < MAXPATHLEN - PF_ANCHOR_NAME_SIZE - 1
    ensures var r := NextSlash(path, q);
      IsName(path[q..r]) && (r < |path| ==> r + 1 < |path| && Creatable(path, r + 1))
  {
  }

  lemma {:induction false} CreatableFrom(path: string, q: nat)
    requires q <= |path| && (q == 0 || path[q - 1] == '/')
    ensures path != "" && Creatable(path, 0) ==> q < |path| && Creatable(path, q)
  {
    if path != "" && Creatable(path, 0) {
      CreatableAt(path, 0, q);
    }
  }

  lemma {:induction false} CreatableAt(path: string, k: nat, q: nat)
    requires k <= q <= |path| && Creatable(path, k) && (q == k || path[q - 1] == '/')
    ensures q < |path| && Creatable(path, q)
    decreases |path| - k
  {
    if k < q {
      var j := NextSlash(path, k);
      CreatableAt(path, j + 1, q);
    }
  }

  lemma ClimbOnce(path: string, name: string, rel: nat)
    requires IsDots(name)
    ensures Climb(path, name, rel) == if path == "" then None else Climb(Up(path), name[3..], rel + 1)
  {
  }

  // Where climbing ends: so many levels up, at a name that climbs no further.
  lemma {:induction false} ClimbResult(path: string, name: string, rel: nat)
    ensures Climb(path, name, rel).Some? ==>
      var (base, rest, r) := Climb(path, name, rel).value;
      && r >= rel && base == Ups(path, r - rel) && !IsDots(rest)
      && (r > rel ==> Ups(path, r - rel - 1) != "")
      && (r == rel ==> rest == name)
    decreases |name|
  {
    if IsDots(name) && path != "" {
      ClimbResult(Up(path), name[3..], rel + 1);
    }
  }

  // A name that does not climb hides no climb in its first component.
  lemma NoDots(k: string, wildcard: bool, rest: string)
    requires !IsDots(rest)
    requires rest == k + (if wildcard then "/*" else "") || rest == k + "/" + (if wildcard then "/*" else "")
    ensures !IsDots(k + if wildcard then "/*" else "")
  {
  }

  lemma NoEmptyPath(m: map<string, Anchor>)
    requires StoreOk(m)
    ensures "" !in m
  {
  }

  lemma MoreRefs(m: map<string, Anchor>, k: string)
    requires StoreOk(m) && k in m
    ensures StoreOk(m[k := m[k].(refs := m[k].refs + 1)])
  {
  }

  // What comes before the wildcard, for a relative name below `base`.
  lemma SplitBelow(base: string, rest: string, rel: nat)
    requires base != ""
    ensures var p := SplitWildcard(base + "/" + rest, rel);
      if p.wildcard && rest == "*" then p.full == base
      else base + "/" <= p.full && rest == p.full[|base| + 1..] + if p.wildcard then "/*" else ""
  {
    var full := base + "/" + rest;
    var p := SplitWildcard(full, rel);
    assert full[|full| - 1] == if rest == "" then '/' else rest[|rest| - 1];
    assert p.wildcard ==> full[|full| - 1] == '*';
    if p.wildcard {
      assert full[|full| - 2..] == "/*" && full == p.full + "/*";
      if |rest| == 1 {
        assert rest[0] == full[|full| - 1] == '*';
      } else if |rest| > 1 {
        assert rest == rest[..|rest| - 2] + "/*";
      }
    }
  }

  lemma SplitAtRoot(rest: string, rel: nat)
    ensures var p := SplitWildcard(rest, rel);
      rest == p.full + if p.wildcard then "/*" else ""
  {
  }

  /** What pf_anchor_setup stores in a rule fits the rule's ruleset. */
  lemma SetupFits(m: map<string, Anchor>, rs: string, name: string, p: Parsed, k: string)
    requires StoreOk(m) && (rs == "" || rs in m) && name != "" && Parse(rs, name) == Some(p)
    requires IsPath(k) && Reached(m, k, SkipSlashes(p.full))
    ensures Fits(rs, Target(k, p.wildcard, p.rel))
  {
    hide Climb, Ups, SplitWildcard, StoreOk, IsDots, SkipSlashes, Under, Reached;
    if rs != "" {
      StorePath(m, rs);
    }
    if name[0] == '/' {
      assert p.rel == 0 by { SplitKeepsRel(name[1..], 0); }
    } else {
      ClimbResult(rs, name, 1);
      var (base, rest, rel) := Climb(rs, name, 1).value;
      SplitKeepsRel(Under(base, rest), rel);
      StoreUps(m, rs, rel - 1);
      if base != "" {
        StorePath(m, base);
        UnderSomething(base, rest);
        SplitBelow(base, rest, rel);
        FitsBelow(m, base, rest, p, k);
      } else {
        SplitAtRoot(rest, rel);
        assert Under(base, rest) == rest by { UnderNothing(rest); }
        assert Reached(m, k, SkipSlashes(p.full));
        if rel == 1 {
          assert rest[0] == name[0];
          NoDotsAtRoot(m, rest, p, k);
        }
      }
    }
  }

  lemma SplitKeepsRel(full: string, rel: nat)
    ensures SplitWildcard(full, rel).rel == rel
  {
  }

  lemma UnderNothing(rest: string)
    ensures Under("", rest) == rest
  {
  }

  lemma UnderSomething(base: string, rest: string)
    requires base != ""
    ensures Under(base, rest) == base + "/" + rest
  {
  }

  lemma NoDotsAtRoot(m: map<string, Anchor>, rest: string, p: Parsed, k: string)
    requires rest != "" && rest[0] != '/' && !IsDots(rest)
    requires rest == p.full + (if p.wildcard then "/*" else "")
    requires Reached(m, k, SkipSlashes(p.full)) && IsPath(k)
    ensures !IsDots(k + if p.wildcard then "/*" else "")
  {
  }

  lemma FitsBelow(m: map<string, Anchor>, base: string, rest: string, p: Parsed, k: string)
    requires IsPath(base) && base in m && !IsDots(rest) && IsPath(k)
    requires if p.wildcard && rest == "*" then p.full == base
      else base + "/" <= p.full && rest == p.full[|base| + 1..] + if p.wildcard then "/*" else ""
    requires Reached(m, k, SkipSlashes(p.full))
    ensures (k == base && p.wildcard) ||
      (base + "/" <= k && |k| > |base| + 1 && !IsDots(k[|base| + 1..] + if p.wildcard then "/*" else ""))
  {
    assert p.full[0] == base[0];
    assert SkipSlashes(p.full) == p.full;
    if !(p.wildcard && rest == "*") {
      var x := p.full[|base| + 1..];
      assert p.full == base + "/" + x;
      if k == p.full {
        NoDots(x, p.wildcard, rest);
      } else {
        assert k == (k + "/")[..|k|] == p.full[..|p.full| - 1];
        assert x == "" ==> k == base;
        assert k[|base| + 1..] + "/" == x;
        NoDots(k[|base| + 1..], p.wildcard, rest);
      }
    }
  }

  // No slash at the end, and none doubled.
  ghost predicate IsPlain(name: string) {
    && name != "" && name[|name| - 1] != '/'
    && forall k :: 0 < k < |name| && name[k] == '/' ==> name[k - 1] != '/'
  }

  lemma {:induction false} ClimbPlain(path: string, name: string, rel: nat)
    requires IsPlain(name)
    ensures Climb(path, name, rel).Some? ==>
      var (base, rest, r) := Climb(path, name, rel).value;
      IsPlain(rest) && (r > rel ==> rest[0] != '/')
    decreases |name|
  {
    if IsDots(name) && path != "" {
      var rest := name[3..];
      assert name[2] == '/';
      if rest != "" {
        assert rest[0] == name[3] && name[3] != '/';
        forall k | 0 < k < |rest| && rest[k] == '/'
          ensures rest[k - 1] != '/'
        {
          assert rest[k] == name[k + 3] && rest[k - 1] == name[k + 2];
        }
        ClimbPlain(Up(path), rest, rel + 1);
        ClimbResult(Up(path), rest, rel + 1);
      }
    }
  }

  lemma {:induction false} SkippedIsSuffix(s: string)
    ensures EndsWith(s, SkipSlashes(s))
  {
    if s != "" && s[0] == '/' {
      SkippedIsSuffix(s[1..]);
    }
  }

  // A plain path that is no wildcard does not become one when it is looked up.
  lemma StillNoWildcard(full: string, k: string)
    requires full != "" && full[|full| - 1] != '/' && !EndsWith(full, "/*")
    requires k == SkipSlashes(full) || k + "/" == SkipSlashes(full)
    ensures !EndsWith(k, "/*")
  {
    hide SkipSlashes;
    SkippedIsSuffix(full);
    var s := SkipSlashes(full);
    assert s != "" ==> s[|s| - 1] == full[|full| - 1];
    assert |s| >= 2 ==> full[|full| - 2..] == s[|s| - 2..];
  }

  /** A plain name is printed so that it reads back, unless it puts a wildcard
      on an ancestor. */
  lemma PlainNamePrintable(m: map<string, Anchor>, rs: string, name: string, p: Parsed, k: string)
    requires StoreOk(m) && (rs == "" || rs in m) && IsPlain(name) && Parse(rs, name) == Some(p)
    requires IsPath(k) && Reached(m, k, SkipSlashes(p.full))
    ensures var t := Target(k, p.wildcard, p.rel);
      Printable(rs, t) <==> !(p.rel >= 2 && p.wildcard && k == Base(rs, t))
  {
    hide Climb, Ups, StoreOk, IsDots, SkipSlashes, EndsWith;
    if name[0] == '/' {
      if !p.wildcard {
        assert name != "/" && name[1..][|name| - 2] != '/';
        StillNoWildcard(name[1..], k);
      }
    } else {
      ClimbResult(rs, name, 1);
      ClimbPlain(rs, name, 1);
      var (base, rest, rel) := Climb(rs, name, 1).value;
      var full := Under(base, rest);
      assert full[|full| - 1] == rest[|rest| - 1];
      if !p.wildcard {
        StillNoWildcard(full, k);
      }
      if base == "" && rel >= 2 {
        SplitAtRoot(rest, rel);
        NoDotsAtRoot(m, rest, p, k);
      }
    }
  }
}
