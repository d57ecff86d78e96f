/** The match loop of pf: rules, anchors and the explicit anchor stack, proved
    against a recursive evaluator that follows the skip pointers nowhere. */
module AnchorWalk {
  import opened Options
  import opened PfRules

  // Length of pf_anchor_stack.
  const STACK_SIZE := 64

  /** All active lists of one kind: the main ruleset's and each anchor's, and
      each anchor's children in tree order. Anchors may call each other in any
      way, themselves included. */
  datatype Graph = Graph(main: seq<Rule>, lists: nat -> seq<Rule>, children: nat -> seq<nat>)

  // The list of a ruleset; the loops write NULL for the main one.
  function ListOf(g: Graph, rs: Option<nat>): seq<Rule> {
    if rs.Some? then g.lists(rs.value) else g.main
  }

  /** A recorded match: the rule, the outermost anchor rule it was reached
      through (an index in the main list), and the ruleset it is in. */
  datatype Match = Match(rs: Option<nat>, rule: nat, outer: Option<nat>)

  /** Outcome so far: `found` is what *rm, *am and *rsm say, `visited` logs every
      match in order, `done` says that a final match ended the evaluation. */
  datatype Result = Result(found: Option<Match>, visited: seq<Match>, p: Progress, done: bool)

  const START := Result(None, [], Progress(-1, 0), false)

  function Record(s: Result, m: Match, p: Progress, final: bool): Result {
    Result(Some(m), s.visited + [m], p, final)
  }

  // ------------------------------------------------------ recursive evaluation

  function Targets(g: Graph, c: AnchorCall): seq<nat>
    requires c.Call?
  {
    if c.wildcard then g.children(c.anchor) else [c.anchor]
  }

  function Outermost(i: nat, depth: nat, outer: Option<nat>): Option<nat> {
    if depth == 0 then Some(i) else outer
  }

  /** Evaluates a list from rule `i` on, one rule after the other. An anchor
      rule met with the stack full counts as no match. */
  function RunList(q: Query, g: Graph, rs: Option<nat>, i: nat, depth: nat,
                   outer: Option<nat>, s: Result): Result
    requires depth <= STACK_SIZE
    decreases STACK_SIZE - depth, 0, |ListOf(g, rs)| - i
  {
    if s.done || i >= |ListOf(g, rs)| then s
    else
      var r := ListOf(g, rs)[i];
      match Try(q, r, s.p)
      case Jump(_) => RunList(q, g, rs, i + 1, depth, outer, s)
      case Miss(p) => RunList(q, g, rs, i + 1, depth, outer, s.(p := p))
      case Hit(p) =>
        if r.call.NoCall? then
          RunList(q, g, rs, i + 1, depth, outer, Record(s, Match(rs, i, outer), p, Final(q, r)))
        else if depth >= STACK_SIZE then
          RunList(q, g, rs, i + 1, depth, outer, s.(p := p))
        else
          var s1 := RunCalls(q, g, Targets(g, r.call), 0, depth + 1, Outermost(i, depth, outer), s.(p := p));
          RunList(q, g, rs, i + 1, depth, outer, s1)
  }

  // Evaluates the rulesets of `targets` from the k-th on, in order.
  function RunCalls(q: Query, g: Graph, targets: seq<nat>, k: nat, depth: nat,
                    outer: Option<nat>, s: Result): Result
    requires depth <= STACK_SIZE
    decreases STACK_SIZE - depth, 1, |targets| - k
  {
    if s.done || k >= |targets| then s
    else RunCalls(q, g, targets, k + 1, depth, outer,
                  RunList(q, g, Some(targets[k]), 0, depth, outer, s))
  }

  function Evaluate(q: Query, g: Graph): Result {
    RunList(q, g, None, 0, 0, None, START)
  }

  /** What a result must look like for "the last match wins" to be true of it, and
      that nothing comes after the first `quick` rule in the filter, nor after the
      first match in translation. */
  ghost predicate LastMatchWins(q: Query, g: Graph, s: Result) {
    && s.found == (if s.visited == [] then None else Some(s.visited[|s.visited| - 1]))
    && (s.done ==> s.visited != [])
    && (q.lookup.Translation? ==> |s.visited| == if s.done then 1 else 0)
    && (forall k :: 0 <= k < |s.visited| ==>
          var m := s.visited[k];
          m.rule < |ListOf(g, m.rs)| &&
          (q.lookup.Filter? ==> (ListOf(g, m.rs)[m.rule].quick <==> s.done && k == |s.visited| - 1)))
  }

  lemma RecordLastMatch(q: Query, g: Graph, s: Result, m: Match, p: Progress)
    requires LastMatchWins(q, g, s) && !s.done && m.rule < |ListOf(g, m.rs)|
    ensures LastMatchWins(q, g, Record(s, m, p, Final(q, ListOf(g, m.rs)[m.rule])))
  {
  }

  // The progress of the tests does not matter.
  lemma MissLastMatch(q: Query, g: Graph, s: Result, p: Progress)
    ensures LastMatchWins(q, g, s.(p := p)) <==> LastMatchWins(q, g, s)
  {
  }

  lemma {:induction false} RunListLastMatch(q: Query, g: Graph, rs: Option<nat>, i: nat, depth: nat,
                                            outer: Option<nat>, s: Result)
    requires depth <= STACK_SIZE && LastMatchWins(q, g, s)
    ensures LastMatchWins(q, g, RunList(q, g, rs, i, depth, outer, s))
    decreases STACK_SIZE - depth, 0, |ListOf(g, rs)| - i
  {
    hide LastMatchWins, RunCalls, Try, Targets;
    if !s.done && i < |ListOf(g, rs)| {
      var r := ListOf(g, rs)[i];
      match Try(q, r, s.p)
      case Jump(_) => RunListLastMatch(q, g, rs, i + 1, depth, outer, s);
      case Miss(p) =>
        MissLastMatch(q, g, s, p);
        RunListLastMatch(q, g, rs, i + 1, depth, outer, s.(p := p));
      case Hit(p) =>
        MissLastMatch(q, g, s, p);
        if r.call.NoCall? {
          RecordLastMatch(q, g, s, Match(rs, i, outer), p);
          RunListLastMatch(q, g, rs, i + 1, depth, outer, Record(s, Match(rs, i, outer), p, Final(q, r)));
        } else if depth >= STACK_SIZE {
          RunListLastMatch(q, g, rs, i + 1, depth, outer, s.(p := p));
        } else {
          var t, o := Targets(g, r.call), Outermost(i, depth, outer);
          RunCallsLastMatch(q, g, t, 0, depth + 1, o, s.(p := p));
          RunListLastMatch(q, g, rs, i + 1, depth, outer, RunCalls(q, g, t, 0, depth + 1, o, s.(p := p)));
        }
    }
  }

  lemma {:induction false} RunCallsLastMatch(q: Query, g: Graph, targets: seq<nat>, k: nat, depth: nat,
                                             outer: Option<nat>, s: Result)
    requires depth <= STACK_SIZE && LastMatchWins(q, g, s)
    ensures LastMatchWins(q, g, RunCalls(q, g, targets, k, depth, outer, s))
    decreases STACK_SIZE - depth, 1, |targets| - k
  {
    if !s.done && k < |targets| {
      RunListLastMatch(q, g, Some(targets[k]), 0, depth, outer, s);
      RunCallsLastMatch(q, g, targets, k + 1, depth, outer,
                        RunList(q, g, Some(targets[k]), 0, depth, outer, s));
    }
  }

  /** The rule an evaluation returns is the last one that matched. In the filter a
      match is of a `quick` rule if and only if it is the last and has ended the
      evaluation; in translation there is no second match. */
  lemma EvaluateLastMatch(q: Query, g: Graph)
    ensures LastMatchWins(q, g, Evaluate(q, g))
  {
    RunListLastMatch(q, g, None, 0, 0, None, START);
  }

  // ------------------------------------------------------- work left, as a number

  /** The rules and rulesets that evaluation from rule `i` on can touch. It is a
      number even when anchors call each other in a circle, for the stack ends. */
  function Weight(g: Graph, rs: Option<nat>, i: nat, depth: nat): nat
    requires depth <= STACK_SIZE
    decreases STACK_SIZE - depth, 0, |ListOf(g, rs)| - i
  {
    if i >= |ListOf(g, rs)| then 0
    else
      var c := ListOf(g, rs)[i].call;
      1 + Weight(g, rs, i + 1, depth) +
      if c.Call? && depth < STACK_SIZE then CallsWeight(g, Targets(g, c), 0, depth + 1) else 0
  }

  function CallsWeight(g: Graph, targets: seq<nat>, k: nat, depth: nat): nat
    requires depth <= STACK_SIZE
    decreases STACK_SIZE - depth, 1, |targets| - k
  {
    if k >= |targets| then 0
    else 1 + Weight(g, Some(targets[k]), 0, depth) + CallsWeight(g, targets, k + 1, depth)
  }

  lemma {:induction false} WeightJump(g: Graph, rs: Option<nat>, i: nat, j: nat, depth: nat)
    requires depth <= STACK_SIZE && i < j && i < |ListOf(g, rs)|
    ensures Weight(g, rs, j, depth) < Weight(g, rs, i, depth)
    decreases j - i
  {
    if i + 1 < j && i + 1 < |ListOf(g, rs)| {
      WeightJump(g, rs, i + 1, j, depth);
    }
  }

  // ------------------------------------------------------------ the anchor stack

  /** struct pf_anchor_stackframe: the calling ruleset and rule and, under a
      wildcard, the anchor whose children are walked and the current child. */
  datatype Frame = Frame(rs: Option<nat>, r: nat, parent: Option<nat>, child: Option<nat>)

  // The rulesets a frame has still to enter after the current one.
  function Others(g: Graph, f: Frame): seq<nat> {
    if f.parent.Some? && f.child.Some? && f.child.value < |g.children(f.parent.value)|
    then g.children(f.parent.value)[f.child.value + 1..] else []
  }

  function OuterOf(stack: seq<Frame>): Option<nat> {
    if stack == [] then None else Some(stack[0].r)
  }

  /** What is left when the current list is used up: for each frame, the other
      children, then the rest of the calling list. */
  function Unwind(q: Query, g: Graph, stack: seq<Frame>, s: Result): Result
    requires |stack| <= STACK_SIZE
    decreases |stack|
  {
    if stack == [] then s
    else
      var d := |stack| - 1;
      var s1 := RunCalls(q, g, Others(g, stack[d]), 0, d + 1, OuterOf(stack), s);
      var s2 := RunList(q, g, stack[d].rs, stack[d].r + 1, d, OuterOf(stack[..d]), s1);
      Unwind(q, g, stack[..d], s2)
  }

  // What is left from rule pointer `r` with this stack.
  function Rest(q: Query, g: Graph, rs: Option<nat>, r: Option<nat>, stack: seq<Frame>, s: Result): Result
    requires |stack| <= STACK_SIZE
  {
    Unwind(q, g, stack,
           if r.Some? then RunList(q, g, rs, r.value, |stack|, OuterOf(stack), s) else s)
  }

  function StackWeight(g: Graph, stack: seq<Frame>): nat
    requires |stack| <= STACK_SIZE
  {
    if stack == [] then 0
    else
      var d := |stack| - 1;
      CallsWeight(g, Others(g, stack[d]), 0, d + 1)
      + Weight(g, stack[d].rs, stack[d].r + 1, d) + StackWeight(g, stack[..d])
  }

  function RestWeight(g: Graph, rs: Option<nat>, r: Option<nat>, stack: seq<Frame>): nat
    requires |stack| <= STACK_SIZE
  {
    StackWeight(g, stack) + if r.Some? then Weight(g, rs, r.value, |stack|) else 0
  }

  lemma RestFrom(q: Query, g: Graph, rs: Option<nat>, i: nat, stack: seq<Frame>, s: Result)
    requires |stack| <= STACK_SIZE
    ensures Rest(q, g, rs, Pointer(ListOf(g, rs), i), stack, s)
         == Unwind(q, g, stack, RunList(q, g, rs, i, |stack|, OuterOf(stack), s))
  {
  }

  lemma UnwindNothing(q: Query, g: Graph)
    ensures forall s :: Unwind(q, g, [], s) == s
  {
  }

  lemma {:induction false} UnwindDone(q: Query, g: Graph, stack: seq<Frame>, s: Result)
    requires |stack| <= STACK_SIZE && s.done
    ensures Unwind(q, g, stack, s) == s
    decreases |stack|
  {
    if stack != [] {
      UnwindDone(q, g, stack[..|stack| - 1], s);
    }
  }

  // Entering the k-th target leaves the others to the frame.
  lemma {:induction false} RunCallsSuffix(q: Query, g: Graph, t: seq<nat>, k: nat, j: nat, depth: nat,
                                          outer: Option<nat>, s: Result)
    requires depth <= STACK_SIZE && k + j <= |t|
    ensures RunCalls(q, g, t, k + j, depth, outer, s) == RunCalls(q, g, t[k..], j, depth, outer, s)
    decreases |t| - k - j
  {
    if k + j < |t| {
      assert t[k + j] == t[k..][j];
      RunCallsSuffix(q, g, t, k, j + 1, depth, outer, RunList(q, g, Some(t[k + j]), 0, depth, outer, s));
    }
  }

  /** Following a skip pointer loses nothing. */
  lemma {:induction false} RunListJump(q: Query, g: Graph, rs: Option<nat>, i: nat, j: nat, depth: nat,
                                       outer: Option<nat>, s: Result)
    requires depth <= STACK_SIZE && i <= j <= |ListOf(g, rs)|
    requires forall k :: i <= k < j ==> Try(q, ListOf(g, rs)[k], s.p).Jump?
    ensures RunList(q, g, rs, i, depth, outer, s) == RunList(q, g, rs, j, depth, outer, s)
    decreases j - i
  {
    if i < j {
      RunListJump(q, g, rs, i + 1, j, depth, outer, s);
    }
  }

  lemma RunCallsFirst(q: Query, g: Graph, t: seq<nat>, depth: nat, outer: Option<nat>, s: Result)
    requires depth <= STACK_SIZE && t != []
    ensures RunCalls(q, g, t, 0, depth, outer, s)
         == RunCalls(q, g, t[1..], 0, depth, outer, RunList(q, g, Some(t[0]), 0, depth, outer, s))
  {
    RunCallsSuffix(q, g, t, 1, 0, depth, outer, RunList(q, g, Some(t[0]), 0, depth, outer, s));
  }

  lemma RunCallsNothing(q: Query, g: Graph, depth: nat, outer: Option<nat>, s: Result)
    requires depth <= STACK_SIZE
    ensures RunCalls(q, g, [], 0, depth, outer, s) == s
  {
  }

  lemma {:induction false} CallsWeightSuffix(g: Graph, t: seq<nat>, k: nat, j: nat, depth: nat)
    requires depth <= STACK_SIZE && k + j <= |t|
    ensures CallsWeight(g, t, k + j, depth) == CallsWeight(g, t[k..], j, depth)
    decreases |t| - k - j
  {
    if k + j < |t| {
      CallsWeightSuffix(g, t, k, j + 1, depth);
    }
  }

  // One frame on top: its other children first, then the caller's rules.
  lemma UnwindPush(q: Query, g: Graph, stack: seq<Frame>, f: Frame, s: Result)
    requires |stack| < STACK_SIZE
    ensures OuterOf(stack + [f]) == Outermost(f.r, |stack|, OuterOf(stack))
    ensures Unwind(q, g, stack + [f], s)
         == Unwind(q, g, stack, RunList(q, g, f.rs, f.r + 1, |stack|, OuterOf(stack),
              RunCalls(q, g, Others(g, f), 0, |stack| + 1, Outermost(f.r, |stack|, OuterOf(stack)), s)))
  {
    hide RunList, Others, Try;
    assert (stack + [f])[..|stack|] == stack;
  }

  lemma StackWeightPush(g: Graph, stack: seq<Frame>, f: Frame)
    requires |stack| < STACK_SIZE
    ensures StackWeight(g, stack + [f])
         == CallsWeight(g, Others(g, f), 0, |stack| + 1) + Weight(g, f.rs, f.r + 1, |stack|) + StackWeight(g, stack)
  {
    hide Weight, CallsWeight, Others;
    assert (stack + [f])[..|stack|] == stack;
  }

  // The frame that pf_step_into_anchor pushes for the anchor rule (rs, i).
  function CallFrame(g: Graph, rs: Option<nat>, i: nat, c: AnchorCall): Frame
    requires c.Call?
  {
    Frame(rs, i, if c.wildcard then Some(c.anchor) else None,
          if c.wildcard && g.children(c.anchor) != [] then Some(0) else None)
  }

  lemma OthersOfCallFrame(g: Graph, rs: Option<nat>, i: nat, c: AnchorCall)
    requires c.Call?
    ensures Others(g, CallFrame(g, rs, i, c)) == if Targets(g, c) == [] then [] else Targets(g, c)[1..]
  {
  }

  /** What pf_step_into_anchor leaves to do is what the anchor rule asked for. */
  lemma EnterCall(q: Query, g: Graph, rs: Option<nat>, i: nat, stack: seq<Frame>, s: Result)
    requires |stack| < STACK_SIZE && i < |ListOf(g, rs)| && ListOf(g, rs)[i].call.Call?
    ensures
      var c := ListOf(g, rs)[i].call;
      var t := Targets(g, c);
      var into := if t == [] then rs else Some(t[0]);
      Rest(q, g, into, if t == [] then None else Pointer(ListOf(g, into), 0), stack + [CallFrame(g, rs, i, c)], s)
      == Unwind(q, g, stack, RunList(q, g, rs, i + 1, |stack|, OuterOf(stack),
           RunCalls(q, g, t, 0, |stack| + 1, Outermost(i, |stack|, OuterOf(stack)), s)))
  {
    hide Weight, CallsWeight, StackWeight, RunList, RunCalls, Unwind, Others, Try;
    var c := ListOf(g, rs)[i].call;
    var t := Targets(g, c);
    var o := Outermost(i, |stack|, OuterOf(stack));
    OthersOfCallFrame(g, rs, i, c);
    var f := CallFrame(g, rs, i, c);
    if t == [] {
      UnwindPush(q, g, stack, f, s);
      RunCallsNothing(q, g, |stack| + 1, o, s);
    } else {
      var s1 := RunList(q, g, Some(t[0]), 0, |stack| + 1, o, s);
      RunCallsFirst(q, g, t, |stack| + 1, o, s);
      assert Unwind(q, g, stack + [f], s1) == Unwind(q, g, stack, RunList(q, g, rs, i + 1, |stack|,
        OuterOf(stack), RunCalls(q, g, t, 0, |stack| + 1, o, s))) by {
        UnwindPush(q, g, stack, f, s1);
      }
      assert OuterOf(stack + [f]) == o;
      RestFrom(q, g, Some(t[0]), 0, stack + [f], s);
    }
  }

  lemma EnterCallWeight(g: Graph, rs: Option<nat>, i: nat, stack: seq<Frame>)
    requires |stack| < STACK_SIZE && i < |ListOf(g, rs)| && ListOf(g, rs)[i].call.Call?
    ensures
      var c := ListOf(g, rs)[i].call;
      var t := Targets(g, c);
      var into := if t == [] then rs else Some(t[0]);
      RestWeight(g, into, if t == [] then None else Pointer(ListOf(g, into), 0), stack + [CallFrame(g, rs, i, c)])
      < RestWeight(g, rs, Some(i), stack)
  {
    hide RunList, RunCalls, Unwind, Others, Try;
    var c := ListOf(g, rs)[i].call;
    OthersOfCallFrame(g, rs, i, c);
    StackWeightPush(g, stack, CallFrame(g, rs, i, c));
    hide StackWeight;
    var t := Targets(g, c);
    assert Weight(g, rs, i, |stack|) == 1 + Weight(g, rs, i + 1, |stack|) + CallsWeight(g, t, 0, |stack| + 1);
    if t != [] {
      CallsWeightSuffix(g, t, 1, 0, |stack| + 1);
      assert CallsWeight(g, t, 0, |stack| + 1)
        == 1 + Weight(g, Some(t[0]), 0, |stack| + 1) + CallsWeight(g, t[1..], 0, |stack| + 1);
    } else {
      assert RestWeight(g, rs, None, stack + [CallFrame(g, rs, i, c)])
        == StackWeight(g, stack + [CallFrame(g, rs, i, c)]);
    }
  }

  /** Entering the next of a frame's other rulesets, with a frame that has one
      fewer of them, changes nothing. */
  lemma NextTarget(q: Query, g: Graph, f: Frame, f': Frame, t: seq<nat>, stack: seq<Frame>, s: Result)
    requires |stack| < STACK_SIZE && t != [] && f'.rs == f.rs && f'.r == f.r
    requires Others(g, f) == t && Others(g, f') == t[1..]
    ensures Rest(q, g, Some(t[0]), Pointer(g.lists(t[0]), 0), stack + [f'], s) == Unwind(q, g, stack + [f], s)
  {
    hide Weight, CallsWeight, StackWeight, Others, Try, RunList, Unwind;
    var o := Outermost(f.r, |stack|, OuterOf(stack));
    var s1 := RunList(q, g, Some(t[0]), 0, |stack| + 1, o, s);
    RunCallsFirst(q, g, t, |stack| + 1, o, s);
    assert Unwind(q, g, stack + [f], s) == Unwind(q, g, stack + [f'], s1) by {
      UnwindPush(q, g, stack, f, s);
      UnwindPush(q, g, stack, f', s1);
    }
    assert OuterOf(stack + [f']) == o;
    RestFrom(q, g, Some(t[0]), 0, stack + [f'], s);
  }

  lemma NextTargetWeight(g: Graph, f: Frame, f': Frame, t: seq<nat>, stack: seq<Frame>)
    requires |stack| < STACK_SIZE && t != [] && f'.rs == f.rs && f'.r == f.r
    requires Others(g, f) == t && Others(g, f') == t[1..]
    ensures RestWeight(g, Some(t[0]), Pointer(g.lists(t[0]), 0), stack + [f']) < StackWeight(g, stack + [f])
  {
    hide Others, StackWeight, Try;
    CallsWeightSuffix(g, t, 1, 0, |stack| + 1);
    StackWeightPush(g, stack, f);
    StackWeightPush(g, stack, f');
  }

  lemma PopFrame(q: Query, g: Graph, f: Frame, stack: seq<Frame>, s: Result)
    requires |stack| < STACK_SIZE && Others(g, f) == []
    ensures
      var r := Pointer(ListOf(g, f.rs), f.r + 1);
      && Rest(q, g, f.rs, r, stack, s) == Unwind(q, g, stack + [f], s)
      && RestWeight(g, f.rs, r, stack) == StackWeight(g, stack + [f])
  {
    hide Others, Try, Unwind;
    UnwindPush(q, g, stack, f, s);
    StackWeightPush(g, stack, f);
  }

  // A skip pointer leads to a place from which the same is left to do.
  lemma JumpKeepsRest(q: Query, g: Graph, rs: Option<nat>, i: nat, stack: seq<Frame>, s: Result)
    requires |stack| <= STACK_SIZE && i < |ListOf(g, rs)|
    requires SkipsSet(ListOf(g, rs)) && Unmixed(q, ListOf(g, rs)) && Try(q, ListOf(g, rs)[i], s.p).Jump?
    ensures
      var r := ListOf(g, rs)[i].skip[Try(q, ListOf(g, rs)[i], s.p).field];
      && (r.Some? ==> r.value < |ListOf(g, rs)|)
      && Rest(q, g, rs, r, stack, s) == Rest(q, g, rs, Some(i), stack, s)
      && RestWeight(g, rs, r, stack) < RestWeight(g, rs, Some(i), stack)
  {
    var list := ListOf(g, rs);
    var field := Try(q, list[i], s.p).field;
    var j := SkipTarget(list, i, field);
    forall k | i <= k < j
      ensures Try(q, list[k], s.p).Jump?
    {
      SkippedAreRejected(q, list, i, field, k);
    }
    RunListJump(q, g, rs, i, j, |stack|, OuterOf(stack), s);
    RestFrom(q, g, rs, j, stack, s);
    WeightJump(g, rs, i, j, |stack|);
  }

  // What is left when an anchor rule is hit, unfolded once.
  lemma HitCall(q: Query, g: Graph, rs: Option<nat>, i: nat, stack: seq<Frame>, s: Result, p: Progress)
    requires |stack| <= STACK_SIZE && i < |ListOf(g, rs)| && !s.done
    requires ListOf(g, rs)[i].call.Call? && Try(q, ListOf(g, rs)[i], s.p) == Hit(p)
    ensures
      var c := ListOf(g, rs)[i].call;
      var t := Targets(g, c);
      var into := if t == [] then rs else Some(t[0]);
      if |stack| == STACK_SIZE then
        var r := Pointer(ListOf(g, rs), i + 1);
        && Rest(q, g, rs, r, stack, s.(p := p)) == Rest(q, g, rs, Some(i), stack, s)
        && RestWeight(g, rs, r, stack) < RestWeight(g, rs, Some(i), stack)
      else
        var r := if t == [] then None else Pointer(ListOf(g, into), 0);
        && Rest(q, g, into, r, stack + [CallFrame(g, rs, i, c)], s.(p := p)) == Rest(q, g, rs, Some(i), stack, s)
        && RestWeight(g, into, r, stack + [CallFrame(g, rs, i, c)]) < RestWeight(g, rs, Some(i), stack)
  {
    if |stack| == STACK_SIZE {
      RestFrom(q, g, rs, i + 1, stack, s.(p := p));
      WeightJump(g, rs, i, i + 1, |stack|);
    } else {
      EnterCall(q, g, rs, i, stack, s.(p := p));
      EnterCallWeight(g, rs, i, stack);
    }
  }

  // What is left when a rule misses, or is hit and is not an anchor.
  lemma MissOrHitRule(q: Query, g: Graph, rs: Option<nat>, i: nat, outer: Option<nat>, stack: seq<Frame>, s: Result)
    requires |stack| <= STACK_SIZE && i < |ListOf(g, rs)| && !s.done && outer == OuterOf(stack)
    ensures
      var rule := ListOf(g, rs)[i];
      var o := Try(q, rule, s.p);
      var r := Pointer(ListOf(g, rs), i + 1);
      && RestWeight(g, rs, r, stack) < RestWeight(g, rs, Some(i), stack)
      && (o.Miss? ==> Rest(q, g, rs, r, stack, s.(p := o.p)) == Rest(q, g, rs, Some(i), stack, s))
      && (o.Hit? && rule.call.NoCall? ==>
            var s1 := Record(s, Match(rs, i, outer), o.p, Final(q, rule));
            Rest(q, g, rs, Some(i), stack, s) ==
            if s1.done then s1 else Rest(q, g, rs, r, stack, s1))
  {
    var rule := ListOf(g, rs)[i];
    var o := Try(q, rule, s.p);
    WeightJump(g, rs, i, i + 1, |stack|);
    if o.Miss? {
      RestFrom(q, g, rs, i + 1, stack, s.(p := o.p));
    } else if o.Hit? && rule.call.NoCall? {
      var s1 := Record(s, Match(rs, i, outer), o.p, Final(q, rule));
      RestFrom(q, g, rs, i + 1, stack, s1);
      if s1.done {
        UnwindDone(q, g, stack, s1);
      }
    }
  }

  /** One round of pf_step_out_of_anchor: the top frame moves to its next child
      or is popped. */
  datatype Place = Place(stack: seq<Frame>, rs: Option<nat>, r: Option<nat>)

  function Leave(g: Graph, stack: seq<Frame>): Place
    requires stack != []
  {
    var below, f := stack[..|stack| - 1], stack[|stack| - 1];
    var t := Others(g, f);
    if t != [] then Place(below + [f.(child := Some(f.child.value + 1))], Some(t[0]), Pointer(g.lists(t[0]), 0))
    else Place(below, f.rs, Pointer(ListOf(g, f.rs), f.r + 1))
  }

  lemma LeaveKeepsRest(q: Query, g: Graph, stack: seq<Frame>, s: Result)
    requires 0 < |stack| <= STACK_SIZE
    ensures
      var to := Leave(g, stack);
      && |to.stack| <= |stack|
      && Rest(q, g, to.rs, to.r, to.stack, s) == Unwind(q, g, stack, s)
      && RestWeight(g, to.rs, to.r, to.stack) <= StackWeight(g, stack)
      && (|to.stack| == |stack| ==> RestWeight(g, to.rs, to.r, to.stack) < StackWeight(g, stack))
  {
    hide RunList, RunCalls, Weight, CallsWeight, Unwind, StackWeight;
    var below, f := stack[..|stack| - 1], stack[|stack| - 1];
    assert stack == below + [f];
    var t := Others(g, f);
    if t != [] {
      var f' := f.(child := Some(f.child.value + 1));
      assert Others(g, f') == t[1..];
      NextTarget(q, g, f, f', t, below, s);
      NextTargetWeight(g, f, f', t, below);
    } else {
      PopFrame(q, g, f, below, s);
    }
  }

  // ------------------------------------------------------------- the match loop

  // Every active list carries the pointers of pf_calc_skip_steps, and a lookup
  // reads all rules of a list the same way round.
  ghost predicate Loaded(q: Query, g: Graph) {
    forall rs :: SkipsSet(ListOf(g, rs)) && Unmixed(q, ListOf(g, rs))
  }

  /** What the loop and the two step functions share: pf_anchor_stack and the
      loop's asd, ruleset, r and a. */
  class Walker {
    const stack: array<Frame>
    var depth: nat
    var rs: Option<nat>
    var r: Option<nat>
    var outer: Option<nat>

    ghost predicate Valid(g: Graph)
      reads this, stack
    {
      && stack.Length == STACK_SIZE && depth <= STACK_SIZE
      && outer == OuterOf(stack[..depth])
      && (r.Some? ==> r.value < |ListOf(g, rs)|)
    }

    ghost function Frames(): seq<Frame>
      reads this, stack
      requires depth <= stack.Length
    {
      stack[..depth]
    }

    constructor (g: Graph)
      ensures Valid(g) && fresh(stack) && stack.Length == STACK_SIZE
      ensures depth == 0 && rs == None && r == Pointer(g.main, 0) && outer == None
    {
      stack := new Frame[STACK_SIZE](_ => Frame(None, 0, None, None));
      depth, rs, outer := 0, None, None;
      r := if |g.main| > 0 then Some(0) else None;
    }

    /** pf_step_into_anchor: pushes the frame of the call and points at the first
        rule of its first ruleset; with the stack full, points past the rule. */
    method StepInto(g: Graph)
      requires Valid(g) && r.Some? && ListOf(g, rs)[r.value].call.Call?
      modifies this, stack
      ensures Valid(g)
      ensures old(depth) == STACK_SIZE ==>
        Frames() == old(Frames()) && rs == old(rs) && r == Pointer(ListOf(g, rs), old(r.value) + 1)
      ensures old(depth) < STACK_SIZE ==>
        var c := ListOf(g, old(rs))[old(r.value)].call;
        var t := Targets(g, c);
        && Frames() == old(Frames()) + [CallFrame(g, old(rs), old(r.value), c)]
        && rs == (if t == [] then old(rs) else Some(t[0]))
        && r == (if t == [] then None else Pointer(ListOf(g, rs), 0))
    {
      var list := ListOf(g, rs);
      if depth >= STACK_SIZE {
        r := if r.value + 1 < |list| then Some(r.value + 1) else None;
        return;
      } else if depth == 0 {
        outer := r;
      }
      var c := list[r.value].call;
      if c.wildcard {
        var kids := g.children(c.anchor);
        if kids == [] {
          stack[depth] := Frame(rs, r.value, Some(c.anchor), None);
          depth, r := depth + 1, None;
          return;
        }
        stack[depth] := Frame(rs, r.value, Some(c.anchor), Some(0));
        depth, rs := depth + 1, Some(kids[0]);
      } else {
        stack[depth] := Frame(rs, r.value, None, None);
        depth, rs := depth + 1, Some(c.anchor);
      }
      r := if |ListOf(g, rs)| > 0 then Some(0) else None;
    }

    // The body of its loop: the top frame's next child, or the caller's next rule.
    method LeaveFrame(g: Graph)
      requires Valid(g) && r == None && depth > 0
      modifies this, stack
      ensures Valid(g) && Place(Frames(), rs, r) == Leave(g, old(Frames()))
    {
      var f := stack[depth - 1];
      if f.parent.Some? && f.child.Some? && f.child.value + 1 < |g.children(f.parent.value)| {
        var kids := g.children(f.parent.value);
        var next := f.child.value + 1;
        stack[depth - 1] := f.(child := Some(next));
        rs := Some(kids[next]);
        r := if |ListOf(g, rs)| > 0 then Some(0) else None;
      } else {
        depth := depth - 1;
        if depth == 0 {
          outer := None;
        }
        rs := f.rs;
        r := if f.r + 1 < |ListOf(g, rs)| then Some(f.r + 1) else None;
      }
    }

    /** pf_step_out_of_anchor: finds the next rule to look at, or none with the
        stack empty; what is left to evaluate is unchanged. */
    method StepOut(g: Graph, ghost q: Query, ghost s: Result)
      requires Valid(g) && r == None
      modifies this, stack
      ensures Valid(g) && (r.Some? || depth == 0)
      ensures Rest(q, g, rs, r, Frames(), s) == old(Rest(q, g, rs, r, Frames(), s))
      ensures RestWeight(g, rs, r, Frames()) <= old(RestWeight(g, rs, r, Frames()))
    {
      hide RunList, RunCalls, Weight, CallsWeight, Unwind, StackWeight, Leave;
      while depth > 0 && r == None
        invariant Valid(g)
        invariant Rest(q, g, rs, r, Frames(), s) == old(Rest(q, g, rs, r, Frames(), s))
        invariant RestWeight(g, rs, r, Frames()) <= old(RestWeight(g, rs, r, Frames()))
        decreases RestWeight(g, rs, r, Frames()), depth
      {
        LeaveKeepsRest(q, g, Frames(), s);
        LeaveFrame(g);
      }
    }
  }

  /** The match loops of pf_test_tcp, pf_test_udp and pf_match_translation, which
      differ in their tests and in what ends them. For every packet and every
      graph of anchors the loop ends, having recorded the same matches in the
      same order as the recursive evaluation. */
  method MatchRules(q: Query, g: Graph) returns (res: Result)
    requires Loaded(q, g)
    ensures res == Evaluate(q, g)
  {
    hide RunList, RunCalls, Weight, CallsWeight, Unwind, StackWeight, Try, RestWeight;
    var w := new Walker(g);
    res := START;
    RestFrom(q, g, None, 0, [], res);
    UnwindNothing(q, g);
    while w.r.Some? && !res.done
      invariant w.Valid(g) && fresh(w) && fresh(w.stack)
      invariant !res.done && w.r == None ==> w.depth == 0
      invariant Evaluate(q, g) == if res.done then res else Rest(q, g, w.rs, w.r, w.Frames(), res)
      decreases !res.done, RestWeight(g, w.rs, w.r, w.Frames())
    {
      var list, i := ListOf(g, w.rs), w.r.value;
      ghost var stack, rs, s := w.Frames(), w.rs, res;
      assert SkipsSet(list) && Unmixed(q, list);
      match Try(q, list[i], res.p) {
        case Jump(field) =>
          w.r := list[i].skip[field];
          JumpKeepsRest(q, g, rs, i, stack, s);
        case Miss(p) =>
          res := res.(p := p);
          w.r := if i + 1 < |list| then Some(i + 1) else None;
          MissOrHitRule(q, g, rs, i, w.outer, stack, s);
        case Hit(p) =>
          if list[i].call.NoCall? {
            res := Record(res, Match(w.rs, i, w.outer), p, Final(q, list[i]));
            MissOrHitRule(q, g, rs, i, w.outer, stack, s);
            if !res.done {
              w.r := if i + 1 < |list| then Some(i + 1) else None;
            }
          } else {
            res := res.(p := p);
            HitCall(q, g, rs, i, stack, s, p);
            w.StepInto(g);
          }
      }
      if w.r == None {
        w.StepOut(g, q, res);
      }
    }
  }
}
