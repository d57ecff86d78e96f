/** The allocator of packet tag ids: a list of named, reference-counted ids. */
module Tags {
  const TAGID_MAX := 50000
  const TAG_NAME_SIZE := 64

  datatype Tag = Tag(name: string, id: nat, refs: nat)

  // The name as strlcpy stores it.
  function Stored(name: string): string {
    if |name| < TAG_NAME_SIZE then name else name[..TAG_NAME_SIZE - 1]
  }

  // All of a name that fits the field with its final NUL, or the first 63 characters.
  lemma StoredIsCut(name: string)
    ensures Stored(name) <= name && |Stored(name)| == if |name| <= 63 then |name| else 63
  {
  }

  // The order of the list.
  ghost predicate Ordered(tags: seq<Tag>) {
    && (forall j, k :: 0 <= j < k < |tags| ==> tags[j].id < tags[k].id)
    && (forall k :: 0 <= k < |tags| ==> 1 <= tags[k].id <= TAGID_MAX && tags[k].refs > 0)
  }

  // No name twice: names and ids are one to one.
  ghost predicate Distinct(tags: seq<Tag>) {
    forall j, k :: 0 <= j < k < |tags| ==> tags[j].name != tags[k].name
  }

  ghost predicate IdInUse(tags: seq<Tag>, id: nat) {
    exists k :: 0 <= k < |tags| && tags[k].id == id
  }

  function FindName(tags: seq<Tag>, name: string): (k: nat)
    ensures k <= |tags| && (k < |tags| ==> tags[k].name == name)
    ensures forall j :: 0 <= j < k ==> tags[j].name != name
  {
    if tags == [] || tags[0].name == name then 0 else 1 + FindName(tags[1..], name)
  }

  function FindId(tags: seq<Tag>, id: nat): (k: nat)
    ensures k <= |tags| && (k < |tags| ==> tags[k].id == id)
    ensures forall j :: 0 <= j < k ==> tags[j].id != id
  {
    if tags == [] || tags[0].id == id then 0 else 1 + FindId(tags[1..], id)
  }

  // The first position whose id is not its number: where the search stops.
  function Gap(tags: seq<Tag>, k: nat): (p: nat)
    requires k <= |tags|
    ensures k <= p <= |tags| && (p < |tags| ==> tags[p].id != p + 1)
    ensures forall j :: k <= j < p ==> tags[j].id == j + 1
    decreases |tags| - k
  {
    if k < |tags| && tags[k].id == k + 1 then Gap(tags, k + 1) else k
  }

  // What tagname2tag leaves behind; `memory` says whether malloc succeeds.
  function Acquire(tags: seq<Tag>, name: string, memory: bool): (nat, seq<Tag>) {
    var k := FindName(tags, name);
    if k < |tags| then (tags[k].id, tags[k := tags[k].(refs := tags[k].refs + 1)])
    else
      var p := Gap(tags, 0);
      if p + 1 > TAGID_MAX || !memory then (0, tags)
      else (p + 1, tags[..p] + [Tag(Stored(name), p + 1, 1)] + tags[p..])
  }

  function AddRef(tags: seq<Tag>, id: nat): seq<Tag> {
    var k := FindId(tags, id);
    if k < |tags| then tags[k := tags[k].(refs := tags[k].refs + 1)] else tags
  }

  function Release(tags: seq<Tag>, id: nat): seq<Tag> {
    var k := FindId(tags, id);
    if id == 0 || k == |tags| then tags
    else if tags[k].refs <= 1 then tags[..k] + tags[k + 1..]
    else tags[k := tags[k].(refs := tags[k].refs - 1)]
  }

  lemma {:induction false} GapIsGap(tags: seq<Tag>)
    requires Ordered(tags)
    ensures var p := Gap(tags, 0);
      && (forall j :: 0 <= j < p ==> tags[j].id < p + 1)
      && (forall j :: p <= j < |tags| ==> tags[j].id > p + 1)
  {
    var p := Gap(tags, 0);
    if p < |tags| {
      if p > 0 {
        assert tags[p - 1].id == p;
      }
      assert tags[p].id > p + 1;
    }
  }

  /** A name that has no tag yet gets the least id not in use, or none when all
      are taken or there is no memory. */
  lemma NewNameGetsLeastId(tags: seq<Tag>, name: string, memory: bool)
    requires Ordered(tags) && FindName(tags, name) == |tags|
    ensures var id := Acquire(tags, name, memory).0;
      && !IdInUse(tags, id)
      && (id != 0 ==> 1 <= id <= TAGID_MAX && forall j :: 1 <= j < id ==> IdInUse(tags, j))
      && (id == 0 <==> !memory || forall j :: 1 <= j <= TAGID_MAX ==> IdInUse(tags, j))
  {
    var p := Gap(tags, 0);
    GapIsGap(tags);
    forall j | 1 <= j <= p
      ensures IdInUse(tags, j)
    {
      assert tags[j - 1].id == j;
    }
  }

  /** A name that has a tag gets that tag's id, with or without memory, and the tag is
      held once more; all others stay. */
  lemma KnownNameIsHeld(tags: seq<Tag>, name: string, memory: bool, k: nat)
    requires k < |tags| && tags[k].name == name && forall j :: 0 <= j < k ==> tags[j].name != name
    ensures Acquire(tags, name, memory)
         == (tags[k].id, tags[..k] + [Tag(name, tags[k].id, tags[k].refs + 1)] + tags[k + 1..])
  {
    assert FindName(tags, name) == k;
    var t := tags[k].(refs := tags[k].refs + 1);
    assert tags[k := t] == tags[..k] + [t] + tags[k + 1..];
  }

  class TagTable {
    var tags: seq<Tag>

    constructor ()
      ensures tags == []
    {
      tags := [];
    }

    // tagname2tag
    method NameToTag(name: string, memory: bool) returns (id: nat)
      modifies this
      ensures (id, tags) == Acquire(old(tags), name, memory)
    {
      var k := 0;
      while k < |tags|
        invariant k <= |tags| && tags == old(tags)
        invariant forall j :: 0 <= j < k ==> tags[j].name != name
      {
        if tags[k].name == name {
          tags := tags[k := tags[k].(refs := tags[k].refs + 1)];
          return tags[k].id;
        }
        k := k + 1;
      }
      var newTagId, p := 1, 0;
      while p < |tags| && tags[p].id == newTagId
        invariant p <= |tags| && newTagId == p + 1
        invariant Gap(tags, 0) == Gap(tags, p)
      {
        newTagId := tags[p].id + 1;
        p := p + 1;
      }
      if newTagId > TAGID_MAX || !memory {
        return 0;
      }
      tags := tags[..p] + [Tag(Stored(name), newTagId, 1)] + tags[p..];
      return newTagId;
    }

    // pf_tag_ref
    method Ref(id: nat)
      modifies this
      ensures tags == AddRef(old(tags), id)
    {
      var k := 0;
      while k < |tags| && tags[k].id != id
        invariant k <= |tags| && forall j :: 0 <= j < k ==> tags[j].id != id
      {
        k := k + 1;
      }
      if k < |tags| {
        tags := tags[k := tags[k].(refs := tags[k].refs + 1)];
      }
    }

    // tag_unref
    method Unref(id: nat)
      modifies this
      ensures tags == Release(old(tags), id)
    {
      if id == 0 {
        return;
      }
      var k := 0;
      while k < |tags| && tags[k].id != id
        invariant k <= |tags| && forall j :: 0 <= j < k ==> tags[j].id != id
      {
        k := k + 1;
      }
      if k < |tags| {
        if tags[k].refs <= 1 {
          tags := tags[..k] + tags[k + 1..];
        } else {
          tags := tags[k := tags[k].(refs := tags[k].refs - 1)];
        }
      }
    }
  }

  // ------------------------------------------------------------------------- runs

  datatype Op = Get(name: string, memory: bool) | Add(id: nat) | Drop(id: nat)

  /** The list, and the ids its users hold, once per reference. */
  datatype World = World(tags: seq<Tag>, held: multiset<nat>)

  /** Users pass any names, but only ids they hold. */
  predicate Legal(w: World, op: Op) {
    match op
    case Get(_, _) => true
    case Add(id) => id in w.held
    case Drop(id) => id == 0 || id in w.held
  }

  function Step(w: World, op: Op): World {
    match op
    case Get(name, memory) =>
      var (id, tags) := Acquire(w.tags, name, memory);
      World(tags, if id == 0 then w.held else w.held + multiset{id})
    case Add(id) => World(AddRef(w.tags, id), w.held + multiset{id})
    case Drop(id) => World(Release(w.tags, id), w.held - multiset{id})
  }

  ghost predicate LegalRun(w: World, ops: seq<Op>)
    decreases |ops|
  {
    ops == [] || (Legal(w, ops[0]) && LegalRun(Step(w, ops[0]), ops[1..]))
  }

  function Run(w: World, ops: seq<Op>): World
    decreases |ops|
  {
    if ops == [] then w else Run(Step(w, ops[0]), ops[1..])
  }

  // The references counted for an id.
  function RefsOf(tags: seq<Tag>, id: nat): nat {
    if tags == [] then 0 else (if tags[0].id == id then tags[0].refs else 0) + RefsOf(tags[1..], id)
  }

  ghost predicate Inv(w: World) {
    Ordered(w.tags) && forall id :: w.held[id] == RefsOf(w.tags, id)
  }

  lemma {:induction false} RefsConcat(a: seq<Tag>, b: seq<Tag>, id: nat)
    ensures RefsOf(a + b, id) == RefsOf(a, id) + RefsOf(b, id)
  {
    if a == [] {
      assert a + b == b;
    } else {
      assert (a + b)[1..] == a[1..] + b;
      RefsConcat(a[1..], b, id);
    }
  }

  lemma {:induction false} RefsPositive(tags: seq<Tag>, id: nat)
    requires RefsOf(tags, id) > 0
    ensures FindId(tags, id) < |tags|
  {
    if tags[0].id != id {
      RefsPositive(tags[1..], id);
    }
  }

  // The list cut at k, with the middle replaced by `mid`.
  lemma RefsSplice(tags: seq<Tag>, k: nat, l: nat, mid: seq<Tag>, id: nat)
    requires k <= l <= |tags|
    ensures RefsOf(tags[..k] + mid + tags[l..], id)
         == RefsOf(tags, id) - RefsOf(tags[k..l], id) + RefsOf(mid, id)
  {
    RefsConcat(tags[..k] + mid, tags[l..], id);
    RefsConcat(tags[..k], mid, id);
    RefsConcat(tags[..k] + tags[k..l], tags[l..], id);
    RefsConcat(tags[..k], tags[k..l], id);
    assert tags == tags[..k] + tags[k..l] + tags[l..];
  }

  lemma RefsOfOne(t: Tag, id: nat)
    ensures RefsOf([t], id) == (if t.id == id then t.refs else 0) && RefsOf([], id) == 0
  {
  }

  lemma ReplaceTag(tags: seq<Tag>, k: nat, n: nat, id: nat)
    requires k < |tags|
    ensures RefsOf(tags[k := tags[k].(refs := n)], id)
         == RefsOf(tags, id) + (if id == tags[k].id then n - tags[k].refs else 0)
  {
    hide RefsOf;
    var t := tags[k].(refs := n);
    assert tags[k := t] == tags[..k] + [t] + tags[k + 1..] && tags[k..k + 1] == [tags[k]];
    RefsSplice(tags, k, k + 1, [t], id);
    RefsOfOne(t, id);
    RefsOfOne(tags[k], id);
  }

  lemma InsertTag(tags: seq<Tag>, p: nat, t: Tag, id: nat)
    requires p <= |tags|
    ensures RefsOf(tags[..p] + [t] + tags[p..], id) == RefsOf(tags, id) + if id == t.id then t.refs else 0
  {
    hide RefsOf;
    assert tags[p..p] == [];
    RefsSplice(tags, p, p, [t], id);
    RefsOfOne(t, id);
  }

  lemma RemoveTag(tags: seq<Tag>, k: nat, id: nat)
    requires k < |tags|
    ensures RefsOf(tags[..k] + tags[k + 1..], id) == RefsOf(tags, id) - if id == tags[k].id then tags[k].refs else 0
  {
    hide RefsOf;
    assert tags[..k] + [] + tags[k + 1..] == tags[..k] + tags[k + 1..] && tags[k..k + 1] == [tags[k]];
    RefsSplice(tags, k, k + 1, [], id);
    RefsOfOne(tags[k], id);
  }

  lemma InsertOrdered(tags: seq<Tag>, p: nat, t: Tag)
    requires Ordered(tags) && p <= |tags| && 1 <= t.id <= TAGID_MAX && t.refs > 0
    requires forall j :: 0 <= j < p ==> tags[j].id < t.id
    requires forall j :: p <= j < |tags| ==> tags[j].id > t.id
    ensures Ordered(tags[..p] + [t] + tags[p..])
  {
    var after := tags[..p] + [t] + tags[p..];
    assert after[p] == t;
    assert forall j :: 0 <= j < |after| && j != p ==> after[j] == tags[if j < p then j else j - 1];
  }

  lemma RemoveKeepsOrder(tags: seq<Tag>, k: nat)
    requires Ordered(tags) && k < |tags|
    ensures Ordered(tags[..k] + tags[k + 1..])
  {
  }

  lemma GetKeepsInv(w: World, name: string, memory: bool)
    requires Inv(w)
    ensures Inv(Step(w, Get(name, memory)))
  {
    hide RefsOf, Ordered, Acquire;
    var w1 := Step(w, Get(name, memory));
    AcquireKeepsOrder(w.tags, name, memory);
    forall id
      ensures w1.held[id] == RefsOf(w1.tags, id)
    {
      GetCounts(w, name, memory, id);
    }
  }

  lemma AcquireKeepsOrder(tags: seq<Tag>, name: string, memory: bool)
    requires Ordered(tags)
    ensures Ordered(Acquire(tags, name, memory).1)
  {
    var k, p := FindName(tags, name), Gap(tags, 0);
    GapIsGap(tags);
    if k < |tags| {
      ReplaceKeepsOrder(tags, k, tags[k].refs + 1);
    } else if p + 1 <= TAGID_MAX {
      InsertOrdered(tags, p, Tag(Stored(name), p + 1, 1));
    }
  }

  lemma ReplaceKeepsOrder(tags: seq<Tag>, k: nat, n: nat)
    requires Ordered(tags) && k < |tags| && n > 0
    ensures Ordered(tags[k := tags[k].(refs := n)])
  {
  }

  lemma GetCounts(w: World, name: string, memory: bool, id: nat)
    requires Inv(w)
    ensures var w1 := Step(w, Get(name, memory)); w1.held[id] == RefsOf(w1.tags, id)
  {
    hide RefsOf;
    var tags := w.tags;
    var k, p := FindName(tags, name), Gap(tags, 0);
    if k < |tags| {
      ReplaceTag(tags, k, tags[k].refs + 1, id);
    } else {
      InsertTag(tags, p, Tag(Stored(name), p + 1, 1), id);
    }
  }

  lemma AddKeepsInv(w: World, id: nat)
    requires Inv(w) && id in w.held
    ensures Inv(Step(w, Add(id)))
  {
    hide RefsOf;
    RefsPositive(w.tags, id);
    var k := FindId(w.tags, id);
    forall i
      ensures Step(w, Add(id)).held[i] == RefsOf(AddRef(w.tags, id), i)
    {
      ReplaceTag(w.tags, k, w.tags[k].refs + 1, i);
    }
  }

  lemma DropKeepsInv(w: World, id: nat)
    requires Inv(w) && (id == 0 || id in w.held)
    ensures Inv(Step(w, Drop(id)))
  {
    hide RefsOf, Ordered, Release;
    ReleaseKeepsOrder(w.tags, id);
    forall i
      ensures Step(w, Drop(id)).held[i] == RefsOf(Release(w.tags, id), i)
    {
      DropCounts(w, id, i);
    }
  }

  lemma ReleaseKeepsOrder(tags: seq<Tag>, id: nat)
    requires Ordered(tags)
    ensures Ordered(Release(tags, id))
  {
    hide Ordered;
    var k := FindId(tags, id);
    if id != 0 && k < |tags| {
      RemoveKeepsOrder(tags, k);
      if tags[k].refs > 1 {
        ReplaceKeepsOrder(tags, k, tags[k].refs - 1);
      }
    }
  }

  lemma DropCounts(w: World, id: nat, i: nat)
    requires Inv(w) && (id == 0 || id in w.held)
    ensures Step(w, Drop(id)).held[i] == RefsOf(Release(w.tags, id), i)
  {
    hide RefsOf;
    if id in w.held {
      RefsPositive(w.tags, id);
      var k := FindId(w.tags, id);
      if w.tags[k].refs <= 1 {
        RemoveTag(w.tags, k, i);
      } else {
        ReplaceTag(w.tags, k, w.tags[k].refs - 1, i);
      }
    } else {
      assert w.held - multiset{id} == w.held;
    }
  }

  /** Over every legal run the list stays sorted within 1..50000, and each counter is
      the number of references held. */
  lemma {:induction false} RunKeepsInv(w: World, ops: seq<Op>)
    requires Inv(w) && LegalRun(w, ops)
    ensures Inv(Run(w, ops))
    decreases |ops|
  {
    if ops != [] {
      match ops[0] {
        case Get(name, memory) => GetKeepsInv(w, name, memory);
        case Add(id) => AddKeepsInv(w, id);
        case Drop(id) => DropKeepsInv(w, id);
      }
      RunKeepsInv(Step(w, ops[0]), ops[1..]);
    }
  }

  lemma RunFromEmpty(w: World, ops: seq<Op>)
    requires w.tags == [] && w.held == multiset{} && LegalRun(w, ops)
    ensures Inv(Run(w, ops))
  {
    RunKeepsInv(w, ops);
  }

  // Every name asked for fits the field it is stored in.
  predicate AllFit(ops: seq<Op>) {
    forall k :: 0 <= k < |ops| && ops[k].Get? ==> |ops[k].name| < TAG_NAME_SIZE
  }

  lemma AcquireKeepsNames(tags: seq<Tag>, name: string, memory: bool)
    requires Distinct(tags) && |name| < TAG_NAME_SIZE
    ensures Distinct(Acquire(tags, name, memory).1)
  {
    var p := Gap(tags, 0);
    var after := tags[..p] + [Tag(Stored(name), p + 1, 1)] + tags[p..];
    assert after[p].name == name;
    assert forall j :: 0 <= j < |after| && j != p ==> after[j] == tags[if j < p then j else j - 1];
  }

  lemma ReleaseKeepsNames(tags: seq<Tag>, id: nat)
    requires Distinct(tags)
    ensures Distinct(Release(tags, id))
  {
  }

  /** If all names fit, names and ids stay one to one as well. */
  lemma {:induction false} RunKeepsNames(w: World, ops: seq<Op>)
    requires Distinct(w.tags) && AllFit(ops)
    ensures Distinct(Run(w, ops).tags)
    decreases |ops|
  {
    hide Distinct, Acquire, Release, AddRef;
    if ops != [] {
      match ops[0] {
        case Get(name, memory) => AcquireKeepsNames(w.tags, name, memory);
        case Add(id) => AddKeepsNames(w.tags, id);
        case Drop(id) => ReleaseKeepsNames(w.tags, id);
      }
      assert forall k :: 0 <= k < |ops[1..]| ==> ops[1..][k] == ops[k + 1];
      RunKeepsNames(Step(w, ops[0]), ops[1..]);
    }
  }

  lemma AddKeepsNames(tags: seq<Tag>, id: nat)
    requires Distinct(tags)
    ensures Distinct(AddRef(tags, id))
  {
  }

  /** A new name that gets a tag is found again if and only if it fits the field that
      strlcpy copies it into. */
  lemma FoundAgainExactly(tags: seq<Tag>, name: string)
    requires FindName(tags, name) == |tags| && Gap(tags, 0) + 1 <= TAGID_MAX
    ensures var after := Acquire(tags, name, true).1;
      FindName(after, name) < |after| <==> |name| < TAG_NAME_SIZE
  {
    var p := Gap(tags, 0);
    var after := Acquire(tags, name, true).1;
    assert after[p].name == Stored(name);
    assert forall j :: 0 <= j < |after| && j != p ==> after[j] == tags[if j < p then j else j - 1];
  }

  /** So a second request for a name that does not fit gets another id, or none. */
  lemma LongNameGetsTwoIds(tags: seq<Tag>, name: string)
    requires Ordered(tags) && |name| >= TAG_NAME_SIZE && Gap(tags, 0) + 1 <= TAGID_MAX
    requires FindName(tags, name) == |tags|
    ensures var (i, after) := Acquire(tags, name, true);
      i != 0 && Acquire(after, name, true).0 != i
  {
    var p := Gap(tags, 0);
    var (i, after) := Acquire(tags, name, true);
    GapIsGap(tags);
    assert Ordered(after) by { InsertOrdered(tags, p, Tag(Stored(name), p + 1, 1)); }
    hide Ordered;
    FoundAgainExactly(tags, name);
    NewNameGetsLeastId(after, name, true);
    assert after[p].id == i && IdInUse(after, i);
  }
}
