/** When skip pointers are safe in a translation list.

    Inbound BINAT rules are read backwards, but their skip pointers are not: a
    BINAT rule rejected by its destination jumps over neighbours that hold the
    same destination against the other end of the packet. */
module TranslationScan {
  import opened Options
  import opened PfRules

  // The rule a lookup stops at when it follows the skip pointers...
  function JumpScan(q: Query, list: seq<Rule>, k: nat, p: Progress): Option<nat>
    decreases |list| - k
  {
    if k >= |list| then None
    else match Try(q, list[k], p)
      case Jump(i) => JumpScan(q, list, SkipTarget(list, k, i), p)
      case Miss(p1) => JumpScan(q, list, k + 1, p1)
      case Hit(_) => Some(k)
  }

  // ...and when it always goes to the next rule.
  function PlainScan(q: Query, list: seq<Rule>, k: nat, p: Progress): Option<nat>
    decreases |list| - k
  {
    if k >= |list| then None
    else match Try(q, list[k], p)
      case Jump(_) => PlainScan(q, list, k + 1, p)
      case Miss(p1) => PlainScan(q, list, k + 1, p1)
      case Hit(_) => Some(k)
  }

  ghost predicate HasActions(list: seq<Rule>, acts: seq<Action>) {
    |list| == |acts| && forall k :: 0 <= k < |list| ==> list[k].action == acts[k]
  }

  /** Skip pointers never matter to rules with these actions. */
  ghost predicate SkipsAreSafe(acts: seq<Action>, direction: nat) {
    forall q: Query, list: seq<Rule>, p: Progress ::
      q.lookup.Translation? && q.direction == direction && HasActions(list, acts) ==>
      JumpScan(q, list, 0, p) == PlainScan(q, list, 0, p)
  }

  // All BINAT or none.
  ghost predicate OneWay(acts: seq<Action>) {
    forall j, k :: 0 <= j < |acts| && 0 <= k < |acts| ==> acts[j].Binat? == acts[k].Binat?
  }

  lemma {:induction false} PlainScanRejected(q: Query, list: seq<Rule>, k: nat, j: nat, p: Progress)
    requires k <= j <= |list|
    requires forall m :: k <= m < j ==> Try(q, list[m], p).Jump?
    ensures PlainScan(q, list, k, p) == PlainScan(q, list, j, p)
    decreases j - k
  {
    if k < j {
      PlainScanRejected(q, list, k + 1, j, p);
    }
  }

  /** In a list read one way round, following the skip pointers finds the same rule. */
  lemma {:induction false} JumpScanIsPlainScan(q: Query, list: seq<Rule>, k: nat, p: Progress)
    requires k <= |list| && Unmixed(q, list)
    ensures JumpScan(q, list, k, p) == PlainScan(q, list, k, p)
    decreases |list| - k
  {
    if k < |list| {
      match Try(q, list[k], p)
      case Hit(_) =>
      case Miss(p1) => JumpScanIsPlainScan(q, list, k + 1, p1);
      case Jump(i) =>
        var j := SkipTarget(list, k, i);
        forall m | k <= m < j
          ensures Try(q, list[m], p).Jump?
        {
          SkippedAreRejected(q, list, k, i, m);
        }
        PlainScanRejected(q, list, k, j, p);
        JumpScanIsPlainScan(q, list, j, p);
    }
  }

  // A list on which following the pointers goes wrong, and the packet for it.
  function Twin(a: Action): Rule {
    var any := (t: nat) => RuleAddr(false, Table(t), 0, 0, AnyPort);
    Rule(a, None, false, 0, 0, 0, any(0), any(1), None, 0, 0, 0, false, 0, 0, false, NoCall, 0, [])
  }

  function Twins(acts: seq<Action>): seq<Rule> {
    seq(|acts|, k requires 0 <= k < |acts| => Twin(acts[k]))
  }

  // Source 1, destination 2; table 1 does not hold `absent`.
  function Stray(absent: nat): Query {
    Query(Translation, 0, None, PF_IN, 0, 0, 1, 2, 0, 0, 0,
          (a, neg, x) => a == Table(1) && x == absent, _ => true, _ => true, _ => 0)
  }

  lemma {:induction false} TwinsNeverChange(acts: seq<Action>, k: nat, i: nat)
    requires k < |acts|
    ensures SkipTarget(Twins(acts), k, i) == |acts|
    decreases |acts| - k
  {
    if k + 1 < |acts| {
      TwinsNeverChange(acts, k + 1, i);
    }
  }

  lemma {:induction false} PlainScanFinds(q: Query, list: seq<Rule>, k: nat, m: nat, p: Progress)
    requires k <= m < |list|
    requires forall n :: 0 <= n < |list| ==> !Try(q, list[n], p).Miss?
    requires Try(q, list[m], p).Hit?
    ensures PlainScan(q, list, k, p).Some?
    decreases m - k
  {
    if k < m && !Try(q, list[k], p).Hit? {
      PlainScanFinds(q, list, k + 1, m, p);
    }
  }

  lemma TryTwin(a: Action, absent: nat)
    requires absent == 1 || absent == 2
    ensures var o := Try(Stray(absent), Twin(a), Progress(0, 0));
      if a.Binat? == (absent == 1) then o == Jump(SKIP_DST_ADDR) else o.Hit?
  {
    var q, r := Stray(absent), Twin(a);
    assert forall i :: 0 <= i < SKIP_COUNT && Rejects(q, r, i) ==> i == SKIP_DST_ADDR;
    assert Rejects(q, r, SKIP_DST_ADDR) <==> a.Binat? == (absent == 1);
  }

  lemma MixedGoesWrong(acts: seq<Action>, m: nat)
    requires 0 < m < |acts| && acts[m].Binat? != acts[0].Binat?
    ensures !SkipsAreSafe(acts, PF_IN)
  {
    var list, p := Twins(acts), Progress(0, 0);
    var absent := if acts[0].Binat? then 1 else 2;
    var q := Stray(absent);
    forall n | 0 <= n < |acts|
      ensures !Try(q, list[n], p).Miss?
    {
      TryTwin(acts[n], absent);
    }
    TryTwin(acts[0], absent);
    TryTwin(acts[m], absent);
    PlainScanFinds(q, list, 0, m, p);
    TwinsNeverChange(acts, 0, SKIP_DST_ADDR);
    assert JumpScan(q, list, 0, p) == None;
    assert HasActions(list, acts);
  }

  /** The exact condition: an inbound lookup may follow the skip pointers of
      every list with these actions if and only if all or none are BINAT; an
      outbound lookup always may. */
  lemma SkipsAreSafeExactly(acts: seq<Action>, direction: nat)
    ensures SkipsAreSafe(acts, direction) <==> direction != PF_IN || OneWay(acts)
  {
    if direction != PF_IN || OneWay(acts) {
      forall q: Query, list: seq<Rule>, p: Progress
        | q.lookup.Translation? && q.direction == direction && HasActions(list, acts)
        ensures JumpScan(q, list, 0, p) == PlainScan(q, list, 0, p)
      {
        JumpScanIsPlainScan(q, list, 0, p);
      }
    } else {
      var j, k :| 0 <= j < |acts| && 0 <= k < |acts| && acts[j].Binat? != acts[k].Binat?;
      MixedGoesWrong(acts, if acts[j].Binat? != acts[0].Binat? then j else k);
    }
  }
}
