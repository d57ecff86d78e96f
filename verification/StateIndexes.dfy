/** Inserting, purging and finding states: every state is in one lan_ext tree, one
    ext_gwy tree, the id tree and the update list. */
module StateIndexes {
  import opened Options
  import opened StateTable

  // A tree holds one state per key, since its comparator is a total order on keys.
  type Tree = map<(nat, seq<int>), State>

  /** The trees of all interfaces, each key with the interface it belongs to; the id
      tree; `state_updates`; `pfi_statehead`, the interfaces that have states; and
      the members of `pf_status` used here. */
  datatype Tables = Tables(
    lanExt: Tree, extGwy: Tree, byId: map<seq<int>, State>, updates: seq<State>, head: seq<nat>,
    states: nat, stateid: nat, hostid: nat)

  function Lan(s: State): (nat, seq<int>) { (s.kif, LanExtKey(s)) }

  function Gwy(s: State): (nat, seq<int>) { (s.kif, ExtGwyKey(s)) }

  // pf_insert_state gives an id to a state that has none.
  function Identified(t: Tables, s: State): State {
    if s.id == 0 && s.creatorid == 0 then s.(id := t.stateid, creatorid := t.hostid) else s
  }

  function AfterId(t: Tables, s: State): Tables {
    if s.id == 0 && s.creatorid == 0 then t.(stateid := (t.stateid + 1) % 0x1_0000_0000_0000_0000) else t
  }

  // pfi_attach_state and pfi_detach_state
  function Attach(head: seq<nat>, kif: nat): seq<nat> { if kif in head then head else head + [kif] }

  predicate Hosts(t: Tables, kif: nat) { exists s | s in t.updates :: s.kif == kif }

  function Detach(t: Tables, kif: nat): seq<nat> {
    if Hosts(t, kif) then t.head else Without(t.head, kif)
  }

  function Without<T(==,!new)>(list: seq<T>, x: T): (r: seq<T>)
    ensures forall y :: y in r <==> y in list && y != x
    ensures |r| <= |list|
  {
    if list == [] then [] else if list[0] == x then Without(list[1..], x) else [list[0]] + Without(list[1..], x)
  }

  /** pf_insert_state: whether the state went in, and the tables after. A refusal by
      the second or third tree takes the state out of the earlier ones again. */
  function Insert(t: Tables, kif: nat, s0: State): (bool, Tables) {
    var s := s0.(kif := kif);
    if Lan(s) in t.lanExt then (false, t)
    else if Gwy(s) in t.extGwy then (false, t)
    else
      var s1, t1 := Identified(t, s), AfterId(t, s);
      if IdKey(s1) in t.byId then (false, t1)
      else (true, t1.(lanExt := t.lanExt[Lan(s1) := s1], extGwy := t.extGwy[Gwy(s1) := s1],
                      byId := t.byId[IdKey(s1) := s1], updates := [s1] + t.updates,
                      states := t.states + 1, head := Attach(t.head, kif)))
  }

  // pf_purge_expired_state
  function Purge(t: Tables, s: State): Tables
    requires t.states > 0
  {
    var t1 := t.(extGwy := t.extGwy - {Gwy(s)}, lanExt := t.lanExt - {Lan(s)}, byId := t.byId - {IdKey(s)},
                 updates := Without(t.updates, s), states := t.states - 1);
    t1.(head := Detach(t1, s.kif))
  }

  ghost predicate NoDup<T>(list: seq<T>) { forall i, j :: 0 <= i < j < |list| ==> list[i] != list[j] }

  // Exactly the listed states are in the tree, each under its own key.
  ghost predicate Indexed<K(!new)>(tree: map<K, State>, list: seq<State>, key: State -> K) {
    && (forall s :: s in list ==> key(s) in tree && tree[key(s)] == s)
    && (forall k :: k in tree ==> tree[k] in list && key(tree[k]) == k)
  }

  ghost predicate HeadOk(t: Tables) {
    NoDup(t.head) && forall kif :: kif in t.head <==> Hosts(t, kif)
  }

  /** The invariant. */
  ghost predicate Agree(t: Tables) {
    && NoDup(t.updates) && t.states == |t.updates|
    && Indexed(t.lanExt, t.updates, Lan) && Indexed(t.extGwy, t.updates, Gwy) && Indexed(t.byId, t.updates, IdKey)
    && HeadOk(t)
  }

  lemma IndexedCons<K(!new)>(tree: map<K, State>, list: seq<State>, key: State -> K, s: State)
    requires Indexed(tree, list, key) && key(s) !in tree
    ensures Indexed(tree[key(s) := s], [s] + list, key) && s !in list
  {
  }

  lemma IndexedWithout<K(!new)>(tree: map<K, State>, list: seq<State>, key: State -> K, s: State)
    requires Indexed(tree, list, key) && s in list
    ensures Indexed(tree - {key(s)}, Without(list, s), key)
  {
  }

  lemma KeysOfIdentified(t: Tables, s: State)
    ensures var s1 := Identified(t, s); Lan(s1) == Lan(s) && Gwy(s1) == Gwy(s) && s1.kif == s.kif
  {
  }

  // Ids depend on the counter and the host alone.
  lemma AfterIdIs(t: Tables, s: State)
    ensures AfterId(t, s) == t.(stateid := AfterId(t, s).stateid)
    ensures forall u: Tables :: u.stateid == t.stateid && u.hostid == t.hostid ==>
              Identified(u, s) == Identified(t, s) && AfterId(u, s).stateid == AfterId(t, s).stateid
  {
  }

  lemma HostsCons(t: Tables, t1: Tables, s: State)
    requires t1.updates == [s] + t.updates
    ensures forall kif :: Hosts(t1, kif) <==> kif == s.kif || Hosts(t, kif)
  {
  }

  lemma HostsWithout(t: Tables, t1: Tables, s: State)
    requires t1.updates == Without(t.updates, s)
    ensures forall kif :: kif != s.kif ==> (Hosts(t1, kif) <==> Hosts(t, kif))
  {
  }

  lemma {:induction false} WithoutOnce<T(!new)>(list: seq<T>, x: T)
    requires NoDup(list)
    ensures NoDup(Without(list, x))
    ensures |Without(list, x)| == if x in list then |list| - 1 else |list|
    decreases |list|
  {
    if list != [] {
      var rest := list[1..];
      assert forall i, j :: 0 <= i < j < |rest| ==> rest[i] == list[i + 1] && rest[j] == list[j + 1];
      WithoutOnce(rest, x);
      assert forall j :: 0 <= j < |rest| ==> rest[j] != list[0];
      assert x in list <==> x == list[0] || x in rest;
      if list[0] == x {
        NotThere(rest, x);
      } else {
        var r := Without(rest, x);
        assert list[0] !in r;
        assert Without(list, x) == [list[0]] + r;
      }
    }
  }

  lemma {:induction false} NotThere<T(!new)>(list: seq<T>, x: T)
    requires x !in list
    ensures Without(list, x) == list
    decreases |list|
  {
    if list != [] {
      assert list[0] in list;
      NotThere(list[1..], x);
    }
  }

  lemma AttachKeeps(t: Tables, t1: Tables, s: State)
    requires HeadOk(t)
    requires t1.updates == [s] + t.updates && t1.head == Attach(t.head, s.kif)
    ensures HeadOk(t1)
  {
    HostsCons(t, t1, s);
  }

  lemma DetachKeeps(t: Tables, t1: Tables, s: State)
    requires HeadOk(t) && s in t.updates
    requires t1.updates == Without(t.updates, s)
    requires t1.head == if Hosts(t1, s.kif) then t.head else Without(t.head, s.kif)
    ensures HeadOk(t1)
  {
    HostsWithout(t, t1, s);
    WithoutOnce(t.head, s.kif);
    assert Hosts(t, s.kif);
  }

  lemma IndexedValues<K(!new)>(tree: map<K, State>, list: seq<State>, key: State -> K)
    requires Indexed(tree, list, key) && NoDup(list)
    ensures tree.Values == (set s | s in list) && |tree| == |list|
  {
    forall s | s in list
      ensures s in tree.Values
    {
      assert tree[key(s)] == s;
    }
    SizeOfSeq(list, key, tree.Keys);
  }

  /** The four indexes of a table that agrees hold the same states, and the counter
      is their number. */
  lemma SameStatesEverywhere(t: Tables)
    requires Agree(t)
    ensures t.lanExt.Values == t.extGwy.Values == t.byId.Values == set s | s in t.updates
    ensures t.states == |t.updates| == |t.byId| == |t.lanExt| == |t.extGwy|
  {
    hide Indexed, LanExtKey, ExtGwyKey, IdKey, HeadOk;
    IndexedValues(t.lanExt, t.updates, Lan);
    IndexedValues(t.extGwy, t.updates, Gwy);
    IndexedValues(t.byId, t.updates, IdKey);
  }

  lemma {:induction false} SizeOfSeq<K>(list: seq<State>, key: State -> K, keys: set<K>)
    requires NoDup(list)
    requires forall s :: s in list ==> key(s) in keys
    requires forall a, b :: a in list && b in list && key(a) == key(b) ==> a == b
    requires forall k :: k in keys ==> exists s :: s in list && key(s) == k
    ensures |keys| == |list|
    decreases |list|
  {
    if list == [] {
      assert keys == {};
    } else {
      var rest, k := list[1..], key(list[0]);
      assert list[0] in list;
      assert forall i :: 0 <= i < |rest| ==> rest[i] == list[i + 1];
      assert NoDup(rest);
      assert forall s :: s in rest ==> s in list && s != list[0];
      forall k1 | k1 in keys - {k}
        ensures exists s :: s in rest && key(s) == k1
      {
        var s :| s in list && key(s) == k1;
        assert s in rest;
      }
      SizeOfSeq(rest, key, keys - {k});
    }
  }

  /** A refusal leaves the trees, the list and the counter as they were, and happens
      exactly when one of the three keys is taken. */
  lemma InsertRefused(t: Tables, kif: nat, s: State)
    ensures var (ok, t1) := Insert(t, kif, s);
            && (!ok ==> t1 == t.(stateid := t1.stateid))
            && (ok <==> (kif, LanExtKey(s)) !in t.lanExt && (kif, ExtGwyKey(s)) !in t.extGwy
                        && IdKey(Identified(t, s)) !in t.byId)
  {
  }

  lemma InsertAgrees(t: Tables, kif: nat, s: State)
    requires Agree(t)
    ensures Agree(Insert(t, kif, s).1)
    ensures Insert(t, kif, s).0 ==> Insert(t, kif, s).1.updates == [Identified(t, s.(kif := kif))] + t.updates
  {
    hide Indexed, LanExtKey, ExtGwyKey, IdKey, HeadOk;
    var (ok, t1) := Insert(t, kif, s);
    if ok {
      KeysOfIdentified(t, s.(kif := kif));
      var s1 := Identified(t, s.(kif := kif));
      IndexedCons(t.lanExt, t.updates, Lan, s1);
      IndexedCons(t.extGwy, t.updates, Gwy, s1);
      IndexedCons(t.byId, t.updates, IdKey, s1);
      AttachKeeps(t, t1, s1);
    } else {
      SameHosting(t, t1);
    }
  }

  // A state that has no id yet.
  predicate NoId(s: State) { s.id == 0 && s.creatorid == 0 }

  predicate HostKeysFree(t: Tables, kif: nat, s: State) {
    (kif, LanExtKey(s)) !in t.lanExt && (kif, ExtGwyKey(s)) !in t.extGwy
  }

  /** What goes in is the state as it was, with its interface and, if it had no id, the
      counter's value and this host. The counter goes up by one, modulo 2^64, for each
      state without id that gets as far as the id tree, and else stays. */
  lemma IdsGiven(t: Tables, kif: nat, s: State)
    ensures var (ok, t1) := Insert(t, kif, s);
      && t1.hostid == t.hostid
      && t1.stateid == (if NoId(s) && HostKeysFree(t, kif, s) then (t.stateid + 1) % 0x1_0000_0000_0000_0000
                        else t.stateid)
      && (ok ==> t1.updates == [s.(kif := kif, id := if NoId(s) then t.stateid else s.id,
                                   creatorid := if NoId(s) then t.hostid else s.creatorid)] + t.updates)
  {
    hide LanExtKey, ExtGwyKey, IdKey;
    assert LanExtKey(s.(kif := kif)) == LanExtKey(s) && ExtGwyKey(s.(kif := kif)) == ExtGwyKey(s) by {
      SameHostKeys(s, kif);
    }
  }

  lemma SameHostKeys(s: State, kif: nat)
    ensures LanExtKey(s.(kif := kif)) == LanExtKey(s) && ExtGwyKey(s.(kif := kif)) == ExtGwyKey(s)
  {
  }

  /** A state without id whose host keys are free is refused if and only if a live state
      of this host has the counter's value as its id: the counter has come round to it. */
  lemma IdRefusedExactly(t: Tables, kif: nat, s: State)
    requires Agree(t) && NoId(s) && HostKeysFree(t, kif, s)
    ensures !Insert(t, kif, s).0 <==> exists u :: u in t.updates && u.id == t.stateid && u.creatorid == t.hostid
  {
    hide LanExtKey, ExtGwyKey, HeadOk;
    InsertRefused(t, kif, s);
    if u :| u in t.updates && u.id == t.stateid && u.creatorid == t.hostid {
      assert IdKey(u) == IdKey(Identified(t, s));
    }
  }

  lemma SameHosting(t: Tables, t1: Tables)
    requires HeadOk(t) && t1.updates == t.updates && t1.head == t.head
    ensures HeadOk(t1)
  {
    assert forall kif :: Hosts(t1, kif) <==> Hosts(t, kif);
  }

  lemma PurgeAgrees(t: Tables, s: State)
    requires Agree(t) && s in t.updates
    ensures t.states > 0 && Agree(Purge(t, s))
    ensures forall x :: x in Purge(t, s).updates <==> x in t.updates && x != s
  {
    hide Indexed, LanExtKey, ExtGwyKey, IdKey, HeadOk;
    WithoutOnce(t.updates, s);
    IndexedWithout(t.lanExt, t.updates, Lan, s);
    IndexedWithout(t.extGwy, t.updates, Gwy, s);
    IndexedWithout(t.byId, t.updates, IdKey, s);
    PurgeHead(t, s);
  }

  lemma PurgeHead(t: Tables, s: State)
    requires HeadOk(t) && s in t.updates && t.states > 0
    ensures HeadOk(Purge(t, s))
  {
    hide HeadOk, Hosts;
    DetachIs(t, Purge(t, s), s);
    DetachKeeps(t, Purge(t, s), s);
  }

  lemma DetachIs(t: Tables, t1: Tables, s: State)
    requires t.states > 0 && t1 == Purge(t, s)
    ensures t1.head == if Hosts(t1, s.kif) then t.head else Without(t.head, s.kif)
  {
  }

  // ------------------------------------------------------------------------ runs

  datatype Op = InsertOp(kif: nat, s: State) | PurgeOp(s: State)

  function Step(t: Tables, op: Op): Tables {
    match op
    case InsertOp(kif, s) => Insert(t, kif, s).1
    case PurgeOp(s) => if s in t.updates && t.states > 0 then Purge(t, s) else t
  }

  function Run(t: Tables, ops: seq<Op>): Tables
    decreases |ops|
  {
    if ops == [] then t else Run(Step(t, ops[0]), ops[1..])
  }

  /** The indexes agree after any run of insertions, refused or not, and purges. */
  lemma {:induction false} RunAgrees(t: Tables, ops: seq<Op>)
    requires Agree(t)
    ensures Agree(Run(t, ops))
    decreases |ops|
  {
    hide Agree, Insert, Purge;
    if ops != [] {
      match ops[0] {
        case InsertOp(kif, s) => InsertAgrees(t, kif, s);
        case PurgeOp(s) => if s in t.updates && t.states > 0 { PurgeAgrees(t, s); }
      }
      RunAgrees(Step(t, ops[0]), ops[1..]);
    }
  }

  // The counter has given out `c` ids, and this host's live states have ids before that.
  ghost predicate IdsBelow(t: Tables, c: nat) {
    t.stateid == c && forall u :: u in t.updates && u.creatorid == t.hostid ==> u.id < c
  }

  // Requests to insert states of this host that have an id already do not come up.
  predicate NoForgedIds(ops: seq<Op>, hostid: nat) {
    forall k :: 0 <= k < |ops| && ops[k].InsertOp? ==> NoId(ops[k].s) || ops[k].s.creatorid != hostid
  }

  lemma {:induction false} RunKeepsIds(t: Tables, ops: seq<Op>, c: nat) returns (d: nat)
    requires Agree(t) && IdsBelow(t, c) && NoForgedIds(ops, t.hostid) && c + |ops| < 0x1_0000_0000_0000_0000
    ensures Agree(Run(t, ops)) && Run(t, ops).hostid == t.hostid && IdsBelow(Run(t, ops), d) && d <= c + |ops|
    decreases |ops|
  {
    hide Agree, Insert, Purge, LanExtKey, ExtGwyKey, IdKey;
    d := c;
    if ops != [] {
      var t1 := Step(t, ops[0]);
      match ops[0] {
        case InsertOp(kif, s) =>
          InsertAgrees(t, kif, s);
          InsertRefused(t, kif, s);
          IdsGiven(t, kif, s);
          assert NoId(s) || s.creatorid != t.hostid by { assert ops[0].InsertOp?; }
          assert IdsBelow(t1, t1.stateid);
        case PurgeOp(s) => if s in t.updates && t.states > 0 { PurgeIds(t, s); }
      }
      assert NoForgedIds(ops[1..], t1.hostid);
      d := RunKeepsIds(t1, ops[1..], t1.stateid);
    }
  }

  lemma PurgeIds(t: Tables, s: State)
    requires Agree(t) && s in t.updates && t.states > 0
    ensures var t1 := Purge(t, s);
      && Agree(t1) && t1.hostid == t.hostid && t1.stateid == t.stateid
      && forall u :: u in t1.updates ==> u in t.updates
  {
    PurgeAgrees(t, s);
  }

  /** So until 2^64 requests have been made no state that is given its id is ever refused
      for that id, whatever other hosts' states are synchronized meanwhile. */
  lemma NeverRefusedById(t: Tables, ops: seq<Op>, kif: nat, s: State)
    requires Agree(t) && t.updates == [] && t.stateid == 0
    requires NoForgedIds(ops, t.hostid) && |ops| < 0x1_0000_0000_0000_0000 && NoId(s)
    ensures Insert(Run(t, ops), kif, s).0 <==> HostKeysFree(Run(t, ops), kif, s)
  {
    hide Agree, Run, Insert, NoForgedIds;
    var c := RunKeepsIds(t, ops, 0);
    var t1 := Run(t, ops);
    InsertRefused(t1, kif, s);
    if HostKeysFree(t1, kif, s) {
      IdRefusedExactly(t1, kif, s);
    }
  }

  function Empty(hostid: nat): Tables { Tables(map[], map[], map[], [], [], 0, 0, hostid) }

  lemma EmptyAgrees(hostid: nat)
    ensures Agree(Empty(hostid))
  {
  }

  lemma SetTwice<K, V>(m: map<K, V>, k: K, a: V, b: V)
    requires k !in m
    ensures m[k := a][k := b] == m[k := b] && m[k := b] - {k} == m
  {
  }

  // The three outcomes of an insertion, field by field.
  lemma InsertCases(t: Tables, kif: nat, s0: State)
    ensures var s, (ok, t1) := s0.(kif := kif), Insert(t, kif, s0);
            var s1, id := Identified(t, s), AfterId(t, s).stateid;
            if Lan(s) in t.lanExt || Gwy(s) in t.extGwy then !ok && t1 == t
            else if IdKey(s1) in t.byId then !ok && t1 == t.(stateid := id)
            else ok && t1 == Tables(t.lanExt[Lan(s1) := s1], t.extGwy[Gwy(s1) := s1], t.byId[IdKey(s1) := s1],
                                    [s1] + t.updates, Attach(t.head, kif), t.states + 1, id, t.hostid)
  {
    hide LanExtKey, ExtGwyKey, IdKey, Attach;
  }

  // --------------------------------------------------------------------- look-up

  datatype Which = LanExt | ExtGwy

  function TreeOf(t: Tables, w: Which): Tree { if w.LanExt? then t.lanExt else t.extGwy }

  function KeyIn(w: Which, s: State): seq<int> { if w.LanExt? then LanExtKey(s) else ExtGwyKey(s) }

  lemma HeadCovers(t: Tables)
    requires Agree(t)
    ensures forall s :: s in t.updates ==> s.kif in t.head
  {
  }

  lemma HeadDistinct(t: Tables)
    requires Agree(t)
    ensures forall i :: 0 <= i < |t.head| ==> t.head[i] !in t.head[..i]
  {
  }

  // What one RB_FIND tells.
  lemma FindOne(t: Tables, w: Which, kif: nat, key: seq<int>)
    requires Agree(t)
    ensures (kif, key) in TreeOf(t, w) ==>
              var s := TreeOf(t, w)[(kif, key)]; s in t.updates && s.kif == kif && KeyIn(w, s) == key
    ensures (kif, key) !in TreeOf(t, w) ==>
              forall s :: s in t.updates && s.kif == kif ==> KeyIn(w, s) != key
  {
    hide LanExtKey, ExtGwyKey, HeadOk;
  }

  // The state that has the key in the first of the interfaces with such a state.
  function FirstHit(t: Tables, kifs: seq<nat>, key: State, w: Which): Option<State>
    decreases |kifs|
  {
    if kifs == [] then None
    else if (kifs[0], KeyIn(w, key)) in TreeOf(t, w) then Some(TreeOf(t, w)[(kifs[0], KeyIn(w, key))])
    else FirstHit(t, kifs[1..], key, w)
  }

  lemma {:induction false} FirstHitExactly(t: Tables, kifs: seq<nat>, key: State, w: Which)
    requires Agree(t)
    ensures var r := FirstHit(t, kifs, key, w);
            && (r.Some? ==> r.value in t.updates && r.value.kif in kifs && KeyIn(w, r.value) == KeyIn(w, key))
            && (r.None? ==> forall s :: s in t.updates && s.kif in kifs ==> KeyIn(w, s) != KeyIn(w, key))
    decreases |kifs|
  {
    hide Agree, KeyIn, TreeOf;
    if kifs != [] {
      FindOne(t, w, kifs[0], KeyIn(w, key));
      FirstHitExactly(t, kifs[1..], key, w);
      assert kifs == [kifs[0]] + kifs[1..];
    }
  }

  /** pf_find_state_recurse; `kifs` is the interface, its group and `any`. */
  method FindRecurse(t: Tables, kifs: seq<nat>, key: State, w: Which) returns (r: Option<State>)
    requires Agree(t)
    ensures r == FirstHit(t, kifs, key, w)
    ensures r.Some? ==> r.value in t.updates && r.value.kif in kifs && KeyIn(w, r.value) == KeyIn(w, key)
    ensures r.None? ==> forall s :: s in t.updates && s.kif in kifs ==> KeyIn(w, s) != KeyIn(w, key)
  {
    FirstHitExactly(t, kifs, key, w);
    for i := 0 to |kifs|
      invariant FirstHit(t, kifs, key, w) == FirstHit(t, kifs[i..], key, w)
    {
      var k := (kifs[i], KeyIn(w, key));
      if k in TreeOf(t, w) {
        return Some(TreeOf(t, w)[k]);
      }
      assert kifs[i..][1..] == kifs[i + 1..];
    }
    r := None;
  }

  // The live states that have the key, of all interfaces and of some.
  ghost function LiveWith(t: Tables, key: State, w: Which): set<State> {
    set s | s in t.updates && KeyIn(w, s) == KeyIn(w, key)
  }

  ghost function LiveIn(t: Tables, kifs: seq<nat>, key: State, w: Which): set<State> {
    set s | s in t.updates && KeyIn(w, s) == KeyIn(w, key) && s.kif in kifs
  }

  // One interface more has one such state or none.
  lemma LiveInNext(t: Tables, kifs: seq<nat>, kif: nat, key: State, w: Which)
    requires Agree(t) && kif !in kifs
    ensures var k := (kif, KeyIn(w, key));
            |LiveIn(t, kifs + [kif], key, w)| == |LiveIn(t, kifs, key, w)| + if k in TreeOf(t, w) then 1 else 0
  {
    hide Agree, KeyIn, TreeOf;
    FindOne(t, w, kif, KeyIn(w, key));
    var k := (kif, KeyIn(w, key));
    if k in TreeOf(t, w) {
      var s := TreeOf(t, w)[k];
      forall x | x in LiveIn(t, kifs + [kif], key, w) && x.kif == kif
        ensures x == s
      {
        OneInTree(t, w, x, s);
      }
      assert LiveIn(t, kifs + [kif], key, w) == LiveIn(t, kifs, key, w) + {s};
    } else {
      assert LiveIn(t, kifs + [kif], key, w) == LiveIn(t, kifs, key, w);
    }
  }

  lemma OneInTree(t: Tables, w: Which, a: State, b: State)
    requires Agree(t) && a in t.updates && b in t.updates && a.kif == b.kif && KeyIn(w, a) == KeyIn(w, b)
    ensures a == b
  {
    hide LanExtKey, ExtGwyKey, HeadOk;
  }

  lemma LiveEnds(t: Tables, key: State, w: Which)
    requires forall s :: s in t.updates ==> s.kif in t.head
    ensures LiveIn(t, [], key, w) == {} && LiveIn(t, t.head, key, w) == LiveWith(t, key, w)
  {
    hide KeyIn;
  }

  /** pf_find_state_all without and with `more`: a state of any interface that has
      the key, and none if and only if there is none; `*more` grows by the number of
      live states that have it. */
  method FindAll(t: Tables, key: State, w: Which, more: Option<nat>) returns (r: Option<State>, more': Option<nat>)
    requires Agree(t)
    ensures r.Some? <==> exists s :: s in t.updates && KeyIn(w, s) == KeyIn(w, key)
    ensures r.Some? ==> r.value in t.updates && KeyIn(w, r.value) == KeyIn(w, key)
    ensures more.None? ==> more' == None
    ensures more.Some? ==> more' == Some(more.value + |LiveWith(t, key, w)|)
  {
    hide Agree, KeyIn, TreeOf, LiveIn, LiveWith;
    HeadCovers(t);
    HeadDistinct(t);
    LiveEnds(t, key, w);
    assert t.head[..0] == [];
    r, more' := None, more;
    for i := 0 to |t.head|
      invariant forall s :: s in t.updates && s.kif in t.head[..i] && KeyIn(w, s) == KeyIn(w, key) ==> r.Some?
      invariant r.Some? ==> r.value in t.updates && KeyIn(w, r.value) == KeyIn(w, key)
      invariant more.None? ==> more' == None
      invariant more.Some? ==> more' == Some(more.value + |LiveIn(t, t.head[..i], key, w)|)
    {
      var k := (t.head[i], KeyIn(w, key));
      FindOne(t, w, t.head[i], KeyIn(w, key));
      LiveInNext(t, t.head[..i], t.head[i], key, w);
      assert t.head[..i + 1] == t.head[..i] + [t.head[i]];
      if k in TreeOf(t, w) {
        r := Some(TreeOf(t, w)[k]);
        if more'.None? {
          return;
        }
        more' := Some(more'.value + 1);
      }
    }
    assert t.head[..|t.head|] == t.head;
  }

  // ------------------------------------------------------------------ expired states

  // What a walk along `order` leaves of the states in `live`.
  function Walk(order: seq<State>, expired: (State, seq<State>) -> bool, live: seq<State>): seq<State>
    decreases |order|
  {
    if order == [] then live
    else Walk(order[1..], expired, if expired(order[0], live) then Without(live, order[0]) else live)
  }

  ghost predicate Fewer(a: seq<State>, b: seq<State>) { multiset(a) <= multiset(b) }

  // With fewer states left none expires that did not expire before.
  ghost predicate Easing(expired: (State, seq<State>) -> bool) {
    forall s, a, b :: Fewer(a, b) && expired(s, a) ==> expired(s, b)
  }

  lemma WithoutFewer(list: seq<State>, s: State)
    requires NoDup(list)
    ensures NoDup(Without(list, s)) && Fewer(Without(list, s), list)
  {
    WithoutOnce(list, s);
    NoDupFewer(list, Without(list, s));
  }

  lemma FewerIn(a: seq<State>, b: seq<State>, s: State)
    requires Fewer(a, b) && s in a
    ensures s in b
  {
    assert s in multiset(a) && s in multiset(b);
  }

  lemma NoDupFewer(list: seq<State>, less: seq<State>)
    requires NoDup(list) && NoDup(less) && forall x :: x in less ==> x in list
    ensures Fewer(less, list)
  {
    forall x | x in less
      ensures multiset(less)[x] <= 1 <= multiset(list)[x]
    {
      NoDupOnce(less, x);
      assert x in multiset(list);
    }
  }

  lemma {:induction false} NoDupOnce(list: seq<State>, x: State)
    requires NoDup(list)
    ensures multiset(list)[x] <= 1
  {
    if list != [] {
      assert list == [list[0]] + list[1..];
      NoDupOnce(list[1..], x);
      if list[0] == x {
        assert x !in list[1..];
        assert multiset(list[1..])[x] == 0;
      }
    }
  }

  /** What has expired goes: every state purged had expired when the walk began, and of
      the states it comes to none that is left has expired when it ends. */
  lemma {:induction false} WalkPurgesExpired(order: seq<State>, expired: (State, seq<State>) -> bool, live: seq<State>)
    requires Easing(expired) && NoDup(live) && NoDup(order) && forall s :: s in order ==> s in live
    ensures var left := Walk(order, expired, live);
      && Fewer(left, live) && NoDup(left)
      && (forall s :: s in live && s !in left ==> s in order && expired(s, live))
      && (forall s :: s in order && s in left ==> !expired(s, left))
    decreases |order|
  {
    if order != [] {
      var s := order[0];
      var live1 := if expired(s, live) then Without(live, s) else live;
      if expired(s, live) {
        WithoutFewer(live, s);
      }
      assert s !in order[1..] && forall x :: x in order[1..] ==> x in order;
      assert Fewer(live1, live);
      WalkPurgesExpired(order[1..], expired, live1);
      var left := Walk(order, expired, live);
      assert Fewer(left, live);
      if s in left {
        FewerIn(left, live1, s);
        assert !expired(s, live);
      }
    }
  }

  // ------------------------------------------------------------------- in place

  class StateStore {
    var lanExt: Tree
    var extGwy: Tree
    var byId: map<seq<int>, State>
    var updates: seq<State>
    var head: seq<nat>
    var states: nat
    var stateid: nat
    var hostid: nat

    ghost function Contents(): Tables
      reads this
    {
      Tables(lanExt, extGwy, byId, updates, head, states, stateid, hostid)
    }

    ghost predicate Valid()
      reads this
    {
      Agree(Contents())
    }

    constructor (id: nat)
      ensures Valid() && Contents() == Empty(id)
    {
      lanExt, extGwy, byId, updates, head := map[], map[], map[], [], [];
      states, stateid, hostid := 0, 0, id;
      new;
      EmptyAgrees(id);
    }

    // The insertions by host keys; the first is undone when the second is refused.
    method InsertHostKeys(s: State) returns (ok: bool)
      modifies this`lanExt, this`extGwy
      ensures ok <==> Lan(s) !in old(lanExt) && Gwy(s) !in old(extGwy)
      ensures lanExt == if ok then old(lanExt)[Lan(s) := s] else old(lanExt)
      ensures extGwy == if ok then old(extGwy)[Gwy(s) := s] else old(extGwy)
    {
      hide Lan, Gwy;
      if Lan(s) in lanExt {
        return false;
      }
      lanExt := lanExt[Lan(s) := s];
      if Gwy(s) in extGwy {
        lanExt := lanExt - {Lan(s)};
        return false;
      }
      extGwy := extGwy[Gwy(s) := s];
      ok := true;
    }

    // The state gets its id; the trees hold the state itself, and so its new id.
    method TakeId(s: State) returns (s1: State)
      requires Lan(s) in lanExt && Gwy(s) in extGwy && lanExt[Lan(s)] == s && extGwy[Gwy(s)] == s
      modifies this`lanExt, this`extGwy, this`stateid
      ensures s1 == Identified(old(Contents()), s) && stateid == AfterId(old(Contents()), s).stateid
      ensures lanExt == old(lanExt)[Lan(s) := s1] && extGwy == old(extGwy)[Gwy(s) := s1]
    {
      hide Lan, Gwy;
      s1 := s;
      if s.id == 0 && s.creatorid == 0 {
        s1 := s.(id := stateid, creatorid := hostid);
        stateid := (stateid + 1) % 0x1_0000_0000_0000_0000;
        lanExt, extGwy := lanExt[Lan(s) := s1], extGwy[Gwy(s) := s1];
      }
    }

    method RemoveHostKeys(s: State)
      modifies this`lanExt, this`extGwy
      ensures lanExt == old(lanExt) - {Lan(s)} && extGwy == old(extGwy) - {Gwy(s)}
    {
      lanExt := lanExt - {Lan(s)};
      extGwy := extGwy - {Gwy(s)};
    }

    method InsertState(kif: nat, s0: State) returns (ok: bool)
      requires Valid()
      modifies this
      ensures Valid() && (ok, Contents()) == Insert(old(Contents()), kif, s0)
    {
      hide LanExtKey, ExtGwyKey, IdKey, Agree, Lan, Gwy, Identified, AfterId, Attach, Insert;
      ghost var t := Contents();
      InsertAgrees(t, kif, s0);
      var s := s0.(kif := kif);
      KeysOfIdentified(t, s);
      InsertCases(t, kif, s0);
      var inserted := InsertHostKeys(s);
      if !inserted {
        return false;
      }
      AfterIdIs(t, s);
      var s1 := TakeId(s);
      SetTwice(t.lanExt, Lan(s), s, s1);
      SetTwice(t.extGwy, Gwy(s), s, s1);
      if IdKey(s1) in byId {
        RemoveHostKeys(s1);
        return false;
      }
      byId := byId[IdKey(s1) := s1];
      updates := [s1] + updates;
      states := states + 1;
      head := Attach(head, kif);
      ok := true;
    }

    method PurgeState(s: State)
      requires Valid() && s in updates
      modifies this
      ensures old(states) > 0 && Valid() && Contents() == Purge(old(Contents()), s)
      ensures updates == Without(old(updates), s)
    {
      hide LanExtKey, ExtGwyKey, IdKey, Agree;
      PurgeAgrees(Contents(), s);
      extGwy := extGwy - {Gwy(s)};
      lanExt := lanExt - {Lan(s)};
      byId := byId - {IdKey(s)};
      updates := Without(updates, s);
      states := states - 1;
      if !exists x | x in updates :: x.kif == s.kif {
        head := Without(head, s.kif);
      }
    }

    /** pf_purge_expired_states: the walk over the id tree, of which `order` is the
        order. Whether a state has expired may depend on the states left by then. */
    method PurgeExpired(order: seq<State>, expired: (State, seq<State>) -> bool)
      requires Valid() && NoDup(order) && forall s :: s in order <==> s in updates
      modifies this
      ensures Valid() && updates == Walk(order, expired, old(updates))
    {
      hide LanExtKey, ExtGwyKey, IdKey, Agree, Purge;
      for i := 0 to |order|
        invariant Valid()
        invariant Walk(order, expired, old(updates)) == Walk(order[i..], expired, updates)
        invariant forall j :: i <= j < |order| ==> order[j] in updates
      {
        var cur := order[i];
        assert order[i..][0] == cur && order[i..][1..] == order[i + 1..];
        if expired(cur, updates) {
          PurgeAgrees(Contents(), cur);
          PurgeState(cur);
        }
      }
    }
  }
}
