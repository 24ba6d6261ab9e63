/** StatsCollection and the StatsReport ids of api/legacy_stats_types.cc: a list of
    owned report pointers that is meant to be a map from id to report. */
module StatsCollection {
  import opened Common

  // ------------------------------------------------------------ report ids

  datatype StatsType =
    | Session | Transport | Component | CandidatePair | Bwe | Ssrc | RemoteSsrc
    | Track | IceLocalCandidate | IceRemoteCandidate | Certificate | DataChannel

  datatype IdClass =
    | BandwidthEstimation | Typed | TypedInt | WithDirection | Candidate | ComponentClass | CandidatePairClass

  /** One constructor per IdBase subclass. */
  datatype Id =
    | BandwidthEstimationId
    | TypedId(kind: StatsType, name: string)
    | TypedIntId(kind: StatsType, number: int)
    | IdWithDirection(kind: StatsType, name: string, sending: bool)
    | CandidateId(local: bool, name: string)
    | ComponentId(content: string, component: int)
    | CandidatePairId(content: string, component: int, index: int)
  {
    function Type(): StatsType {
      match this
      case BandwidthEstimationId => Bwe
      case TypedId(t, _) => t
      case TypedIntId(t, _) => t
      case IdWithDirection(t, _, _) => t
      case CandidateId(l, _) => if l then IceLocalCandidate else IceRemoteCandidate
      case ComponentId(_, _) => Component
      case CandidatePairId(_, _, _) => CandidatePair
    }

    function Class(): IdClass {
      match this
      case BandwidthEstimationId => BandwidthEstimation
      case TypedId(_, _) => Typed
      case TypedIntId(_, _) => TypedInt
      case IdWithDirection(_, _, _) => WithDirection
      case CandidateId(_, _) => Candidate
      case ComponentId(_, _) => ComponentClass
      case CandidatePairId(_, _, _) => CandidatePairClass
    }

    /** TypedId or a class derived from it. */
    predicate IsTyped() { TypedId? || IdWithDirection? || CandidateId? }

    /** The static_casts that Equals reaches are defined.  They are reached for equal
        tags only.  CandidateId inherits TypedId's Equals, so both cast to TypedId;
        IdWithDirection does that first, and goes on only if the names are equal. */
    predicate Comparable(other: Id) {
      Type() == other.Type() ==>
        || Class() == other.Class()
        || Class() == BandwidthEstimation
        || ((TypedId? || CandidateId?) && other.IsTyped())
        || (IdWithDirection? && other.IsTyped() && name != other.name)
    }

    /** The virtual Equals, dispatched on the receiver's class. */
    predicate Equals(other: Id)
      requires Comparable(other)
    {
      Type() == other.Type() &&
      match this
      case BandwidthEstimationId => true
      case TypedId(_, name) => other.name == name
      case TypedIntId(_, number) => other.number == number
      case IdWithDirection(_, name, sending) => other.name == name && other.sending == sending
      case CandidateId(_, name) => other.name == name
      case ComponentId(content, component) => other.component == component && other.content == content
      case CandidatePairId(content, component, index) =>
        other.component == component && other.content == content && other.index == index
    }
  }

  /** Equals is defined both ways for ids of one class, for a plain typed id and a
      candidate id, and for typed ids of any classes with different names. */
  predicate SameFamily(a: Id, b: Id) {
    a.Type() == b.Type() ==>
      || a.Class() == b.Class()
      || (a.TypedId? && b.CandidateId?) || (a.CandidateId? && b.TypedId?)
      || (a.IsTyped() && b.IsTyped() && a.name != b.name)
  }

  lemma ComparableIsSameFamily(a: Id, b: Id)
    ensures a.Comparable(b) && b.Comparable(a) <==> SameFamily(a, b)
  {
  }

  /** Different ids that Equals takes for one. */
  predicate Twins(a: Id, b: Id) {
    a.Type() == b.Type() && ((a.TypedId? && b.CandidateId?) || (a.CandidateId? && b.TypedId?)) && a.name == b.name
  }

  lemma EqualsIsEqualityOrTwins(a: Id, b: Id)
    requires SameFamily(a, b)
    ensures a.Comparable(b) && (a.Equals(b) <==> a == b || Twins(a, b))
  {
  }

  /** A candidate id is of the local or the remote candidates' tag, and the plain typed
      id of that tag and name is its twin. */
  lemma CandidateTwins(local: bool, name: string)
    ensures Twins(CandidateId(local, name), TypedId(if local then IceLocalCandidate else IceRemoteCandidate, name))
  {
  }

  /** Equals is defined for all pairs of ids in use. */
  ghost predicate Defined(ids: set<Id>) {
    forall a, b | a in ids && b in ids :: a.Comparable(b)
  }

  ghost predicate IsEquivalence(ids: set<Id>)
    requires Defined(ids)
  {
    && (forall a | a in ids :: a.Equals(a))
    && (forall a, b | a in ids && b in ids && a.Equals(b) :: b.Equals(a))
    && (forall a, b, c | a in ids && b in ids && c in ids && a.Equals(b) && b.Equals(c) :: a.Equals(c))
  }

  ghost predicate IsEquality(ids: set<Id>)
    requires Defined(ids)
  {
    forall a, b | a in ids && b in ids :: a.Equals(b) <==> a == b
  }

  /** For the ids in use, Equals is defined for all of them and an equivalence exactly
      when no two that share a tag are of different classes, except typed ids of which
      no directed one shares its name with one of another class; and it is equality
      exactly when there are no twins besides. */
  lemma EqualsIsEquivalenceIff(ids: set<Id>)
    ensures Defined(ids) && IsEquivalence(ids) <==> forall a, b | a in ids && b in ids :: SameFamily(a, b)
    ensures Defined(ids) && IsEquality(ids) <==>
            forall a, b | a in ids && b in ids :: SameFamily(a, b) && !Twins(a, b)
  {
    forall a, b | a in ids && b in ids
      ensures a.Comparable(b) && b.Comparable(a) <==> SameFamily(a, b)
      ensures SameFamily(a, b) ==> (a.Equals(b) <==> a == b || Twins(a, b))
    {
      ComparableIsSameFamily(a, b);
      if SameFamily(a, b) {
        EqualsIsEqualityOrTwins(a, b);
      }
    }
    if forall a, b | a in ids && b in ids :: SameFamily(a, b) {
      FamiliesAreDefined(ids);
      FamiliesAreTransitive(ids);
    }
  }

  lemma FamiliesAreDefined(ids: set<Id>)
    requires forall a, b | a in ids && b in ids :: SameFamily(a, b)
    ensures Defined(ids)
  {
    forall a, b | a in ids && b in ids ensures a.Comparable(b) {
      ComparableIsSameFamily(a, b);
    }
  }

  lemma FamiliesAreTransitive(ids: set<Id>)
    requires (forall a, b | a in ids && b in ids :: SameFamily(a, b)) && Defined(ids)
    ensures IsEquivalence(ids)
  {
    forall a, b | a in ids && b in ids ensures a.Equals(b) <==> a == b || Twins(a, b) {
      EqualsIsEqualityOrTwins(a, b);
    }
  }

  /** In particular, one id class per type tag makes Equals equality. */
  lemma EqualsIsEquality(a: Id, b: Id)
    requires a.Type() == b.Type() ==> a.Class() == b.Class()
    ensures a.Comparable(b) && (a.Equals(b) <==> a == b)
  {
  }

  /** Where the casts happen to go one way only, it is not even transitive: a plain id
      equals both directions of the directed ids that share its type and name. */
  lemma EqualsNeedsOneClassPerType()
    ensures var plain, send, recv := TypedId(Ssrc, "1"), IdWithDirection(Ssrc, "1", true), IdWithDirection(Ssrc, "1", false);
            && plain.Comparable(send) && plain.Equals(send)
            && plain.Comparable(recv) && plain.Equals(recv)
            && send.Comparable(recv) && !send.Equals(recv)
  {
  }

  // ------------------------------------------------------------ list as map

  /** A pointer to a report, with the report's immutable id. */
  datatype Ref = Ref(ptr: int, id: Id)

  ghost predicate UniqueIds(l: seq<Ref>) {
    forall i, j | 0 <= i < j < |l| :: l[i].id != l[j].id
  }

  ghost predicate HasId(l: seq<Ref>, id: Id) {
    exists i :: 0 <= i < |l| && l[i].id == id
  }

  /** The map that the list stands for. */
  ghost function AsMap(l: seq<Ref>): map<Id, Ref>
    decreases |l|
  {
    if l == [] then map[] else AsMap(l[..|l| - 1])[l[|l| - 1].id := l[|l| - 1]]
  }

  ghost predicate FoundAt(l: seq<Ref>, id: Id, k: nat) {
    && k <= |l|
    && (forall i | 0 <= i < k :: l[i].id != id)
    && (k < |l| ==> l[k].id == id)
  }

  /** The position of the first report with that id, or the length of the list. */
  ghost function Find(l: seq<Ref>, id: Id): (k: nat)
    ensures FoundAt(l, id, k)
    decreases |l|
  {
    if l == [] then 0
    else
      var k := Find(l[..|l| - 1], id);
      if k < |l| - 1 || l[|l| - 1].id == id then k else |l|
  }

  /** One round of MergeCollection's loop: replace in place or append. */
  ghost function Upsert(l: seq<Ref>, r: Ref): seq<Ref> {
    var k := Find(l, r.id);
    if k < |l| then l[k := r] else l + [r]
  }

  ghost function Evicted(l: seq<Ref>, r: Ref): multiset<Ref> {
    var k := Find(l, r.id);
    if k < |l| then multiset{l[k]} else multiset{}
  }

  ghost function Merge(l: seq<Ref>, c: seq<Ref>): seq<Ref>
    decreases |c|
  {
    if c == [] then l else Upsert(Merge(l, c[..|c| - 1]), c[|c| - 1])
  }

  /** The reports that a merge deletes. */
  ghost function Displaced(l: seq<Ref>, c: seq<Ref>): multiset<Ref>
    decreases |c|
  {
    if c == [] then multiset{}
    else Displaced(l, c[..|c| - 1]) + Evicted(Merge(l, c[..|c| - 1]), c[|c| - 1])
  }

  ghost function Ids(l: seq<Ref>): seq<Id> {
    seq(|l|, i requires 0 <= i < |l| => l[i].id)
  }

  ghost function AppendNew(ids: seq<Id>, id: Id): seq<Id> {
    if id in ids then ids else ids + [id]
  }

  ghost function AppendAllNew(ids: seq<Id>, more: seq<Id>): seq<Id>
    decreases |more|
  {
    if more == [] then ids else AppendNew(AppendAllNew(ids, more[..|more| - 1]), more[|more| - 1])
  }

  // ------------------------------------------------------------ laws of the list

  lemma {:induction false} AsMapLookup(l: seq<Ref>, id: Id)
    requires UniqueIds(l)
    ensures id in AsMap(l) <==> Find(l, id) < |l|
    ensures Find(l, id) < |l| ==> AsMap(l)[id] == l[Find(l, id)]
    decreases |l|
  {
    if l != [] {
      AsMapLookup(l[..|l| - 1], id);
    }
  }

  lemma FindUnique(l: seq<Ref>, id: Id, k: nat)
    requires FoundAt(l, id, k)
    ensures k == Find(l, id)
  {
  }

  lemma UpsertIds(l: seq<Ref>, r: Ref)
    ensures UniqueIds(Upsert(l, r)) <==> UniqueIds(l)
    ensures Ids(Upsert(l, r)) == AppendNew(Ids(l), r.id)
  {
    var k := Find(l, r.id);
    if k < |l| {
      assert Ids(l)[k] == r.id;
      assert Ids(Upsert(l, r)) == Ids(l);
      ReplacedIsUnique(l, k, r);
    } else {
      assert r.id !in Ids(l);
      assert Ids(Upsert(l, r)) == Ids(l) + [r.id];
      AppendedIsUnique(l, r);
    }
  }

  /** Appending keeps ids unique exactly when the id is absent. */
  lemma AppendedIsUnique(l: seq<Ref>, r: Ref)
    ensures UniqueIds(l + [r]) <==> UniqueIds(l) && !HasId(l, r.id)
  {
    var u := l + [r];
    if UniqueIds(u) {
      assert forall i | 0 <= i < |l| :: u[i] == l[i] && u[i].id != u[|l|].id;
    }
  }

  lemma ReplacedIsUnique(l: seq<Ref>, k: nat, r: Ref)
    requires k < |l| && r.id == l[k].id
    ensures UniqueIds(l[k := r]) <==> UniqueIds(l)
  {
    assert forall i | 0 <= i < |l| :: l[k := r][i].id == l[i].id;
  }

  lemma UpsertFind(l: seq<Ref>, r: Ref, id: Id)
    requires UniqueIds(l)
    ensures Find(Upsert(l, r), id) ==
            if id == r.id then Find(l, r.id) else if Find(l, id) < |l| then Find(l, id) else |Upsert(l, r)|
  {
    var u := Upsert(l, r);
    FindUnique(u, id, if id == r.id then Find(l, r.id) else if Find(l, id) < |l| then Find(l, id) else |u|);
  }

  lemma UpsertAsMap(l: seq<Ref>, r: Ref)
    requires UniqueIds(l)
    ensures AsMap(Upsert(l, r)) == AsMap(l)[r.id := r]
  {
    UpsertIds(l, r);
    forall id ensures id in AsMap(Upsert(l, r)) <==> id in AsMap(l)[r.id := r]
              ensures id in AsMap(Upsert(l, r)) ==> AsMap(Upsert(l, r))[id] == AsMap(l)[r.id := r][id] {
      AsMapLookup(l, id);
      AsMapLookup(Upsert(l, r), id);
      UpsertFind(l, r, id);
    }
  }

  lemma {:induction false} MergeIds(l: seq<Ref>, c: seq<Ref>)
    ensures UniqueIds(Merge(l, c)) <==> UniqueIds(l)
    ensures Ids(Merge(l, c)) == AppendAllNew(Ids(l), Ids(c))
    ensures Ids(l) <= Ids(Merge(l, c))
    decreases |c|
  {
    if c != [] {
      var d := c[..|c| - 1];
      MergeIds(l, d);
      UpsertIds(Merge(l, d), c[|c| - 1]);
      assert Ids(c)[..|c| - 1] == Ids(d);
    }
  }

  lemma {:induction false} MergeUnion(l: seq<Ref>, c: seq<Ref>)
    requires UniqueIds(l)
    ensures AsMap(Merge(l, c)) == AsMap(l) + AsMap(c)
    decreases |c|
  {
    if c != [] {
      var d := c[..|c| - 1];
      MergeUnion(l, d);
      MergeIds(l, d);
      UpsertAsMap(Merge(l, d), c[|c| - 1]);
      UnionThenUpdate(AsMap(l), AsMap(d), c[|c| - 1].id, c[|c| - 1]);
    }
  }

  lemma UnionThenUpdate<K, V>(a: map<K, V>, b: map<K, V>, k: K, v: V)
    ensures (a + b)[k := v] == a + b[k := v]
  {
  }

  /** MergeCollection is the union that prefers the merged reports; ids stay
      unique, keep their positions, and new ones are appended in order. */
  lemma MergeIsRightBiasedUnion(l: seq<Ref>, c: seq<Ref>)
    requires UniqueIds(l)
    ensures UniqueIds(Merge(l, c))
    ensures AsMap(Merge(l, c)) == AsMap(l) + AsMap(c)
    ensures Ids(Merge(l, c)) == AppendAllNew(Ids(l), Ids(c))
    ensures Ids(l) <= Ids(Merge(l, c))
  {
    MergeIds(l, c);
    MergeUnion(l, c);
  }

  lemma MergeLaws(l: seq<Ref>, c: seq<Ref>)
    ensures UniqueIds(Merge(l, c)) <==> UniqueIds(l)
    ensures UniqueIds(l) ==> AsMap(Merge(l, c)) == AsMap(l) + AsMap(c)
  {
    MergeIds(l, c);
    if UniqueIds(l) {
      MergeUnion(l, c);
    }
  }

  lemma UpsertLaws(l: seq<Ref>, r: Ref)
    ensures UniqueIds(Upsert(l, r)) <==> UniqueIds(l)
    ensures UniqueIds(l) ==> AsMap(Upsert(l, r)) == AsMap(l)[r.id := r]
  {
    UpsertIds(l, r);
    if UniqueIds(l) {
      UpsertAsMap(l, r);
    }
  }

  lemma UpsertConserves(l: seq<Ref>, r: Ref)
    ensures multiset(Upsert(l, r)) + Evicted(l, r) == multiset(l) + multiset{r}
  {
    var k := Find(l, r.id);
    if k < |l| {
      UpdateConserves(l, k, r);
    }
  }

  lemma UpdateConserves<T>(l: seq<T>, k: nat, x: T)
    requires k < |l|
    ensures multiset(l[k := x]) + multiset{l[k]} == multiset(l) + multiset{x}
  {
    assert multiset(l[k := x]) == multiset(l) - multiset{l[k]} + multiset{x};
  }

  /** Every report that went into a merge is in the result or was deleted, once. */
  lemma {:induction false} MergeConserves(l: seq<Ref>, c: seq<Ref>)
    ensures multiset(Merge(l, c)) + Displaced(l, c) == multiset(l) + multiset(c)
    decreases |c|
  {
    if c != [] {
      var d, r := c[..|c| - 1], c[|c| - 1];
      MergeConserves(l, d);
      UpsertConserves(Merge(l, d), r);
      assert c == d + [r];
      Regroup(multiset(Upsert(Merge(l, d), r)), Displaced(l, d), Evicted(Merge(l, d), r),
              multiset(Merge(l, d)), multiset{r}, multiset(l), multiset(d));
    }
  }

  lemma Regroup<T>(u: multiset<T>, gone: multiset<T>, evicted: multiset<T>, merged: multiset<T>,
                   one: multiset<T>, l: multiset<T>, d: multiset<T>)
    requires u + evicted == merged + one && merged + gone == l + d
    ensures u + (gone + evicted) == l + (d + one)
  {
    assert u + (gone + evicted) == (u + evicted) + gone;
    assert (merged + one) + gone == (merged + gone) + one;
  }

  lemma {:induction false} MergeIntoEmpty(c: seq<Ref>)
    requires UniqueIds(c)
    ensures Merge([], c) == c
    decreases |c|
  {
    if c != [] {
      var d, r := c[..|c| - 1], c[|c| - 1];
      MergeIntoEmpty(d);
      FindUnique(d, r.id, |d|);
      assert c == d + [r];
    }
  }

  /** Merging a detached list into an empty collection restores it, exactly when
      its ids are unique. */
  lemma DetachThenMergeRestores(c: seq<Ref>)
    ensures UniqueIds(c) <==> Merge([], c) == c
  {
    MergeIds([], c);
    if UniqueIds(c) {
      MergeIntoEmpty(c);
    }
  }

  // ------------------------------------------------------------ whole programs

  /** Any number of collections and detached containers over one heap. */
  datatype World = World(lists: map<int, seq<Ref>>, created: set<Ref>, freed: multiset<Ref>, next: int)

  const START := World(map[], {}, multiset{}, 0)

  /** How often the containers named in `keys` hold `r`, all together. */
  ghost function Copies(lists: map<int, seq<Ref>>, keys: set<int>, r: Ref): nat
    requires keys <= lists.Keys
  {
    if keys == {} then 0
    else
      HasMember(keys);
      var k :| k in keys;
      multiset(lists[k])[r] + Copies(lists, keys - {k}, r)
  }

  ghost function Held(w: World, r: Ref): nat { Copies(w.lists, w.lists.Keys, r) }

  /** A report that was created is held by exactly one container, once, or has been
      freed exactly once; no other pointer is held or freed. */
  ghost predicate Accounted(w: World, r: Ref) {
    Held(w, r) + w.freed[r] == if r in w.created then 1 else 0
  }

  ghost predicate Tidy(w: World) {
    && (forall r :: Accounted(w, r))
    && (forall r | r in w.created :: r.ptr < w.next)
  }

  datatype Op =
    | Create(at: int)
    | InsertNew(at: int, id: Id)
    | FindOrAddNew(at: int, id: Id)
    | ReplaceOrAddNew(at: int, id: Id)
    | Detach(at: int, into: int)
    | MergeInto(at: int, from: int)
    | Destroy(at: int)

  ghost predicate Enabled(w: World, op: Op) {
    match op
    case Create(a) => a !in w.lists
    case InsertNew(a, _) => a in w.lists
    case FindOrAddNew(a, _) => a in w.lists
    case ReplaceOrAddNew(a, _) => a in w.lists
    case Detach(a, b) => a in w.lists && b !in w.lists
    case MergeInto(a, b) => a in w.lists && b in w.lists && a != b
    case Destroy(a) => a in w.lists
  }

  ghost function Added(w: World, a: int, id: Id): World
    requires a in w.lists
  {
    var r := Ref(w.next, id);
    World(w.lists[a := w.lists[a] + [r]], w.created + {r}, w.freed, w.next + 1)
  }

  ghost function Replaced(w: World, a: int, k: nat): World
    requires a in w.lists && k < |w.lists[a]|
  {
    var previous := w.lists[a][k];
    var r := Ref(w.next, previous.id);
    World(w.lists[a := w.lists[a][k := r]], w.created + {r}, w.freed + multiset{previous}, w.next + 1)
  }

  ghost function Step(w: World, op: Op): World
    requires Enabled(w, op)
  {
    match op
    case Create(a) => w.(lists := w.lists[a := []])
    case InsertNew(a, id) => Added(w, a, id)
    case FindOrAddNew(a, id) => if HasId(w.lists[a], id) then w else Added(w, a, id)
    case ReplaceOrAddNew(a, id) =>
      if HasId(w.lists[a], id) then Replaced(w, a, Find(w.lists[a], id)) else Added(w, a, id)
    case Detach(a, b) => w.(lists := w.lists[b := w.lists[a]][a := []])
    case MergeInto(a, b) =>
      w.(lists := w.lists[a := Merge(w.lists[a], w.lists[b])] - {b},
         freed := w.freed + Displaced(w.lists[a], w.lists[b]))
    case Destroy(a) => w.(lists := w.lists - {a}, freed := w.freed + multiset(w.lists[a]))
  }

  ghost function Run(ops: seq<Op>): Option<World>
    decreases |ops|
  {
    if ops == [] then Some(START)
    else
      var w := Run(ops[..|ops| - 1]);
      if w.Some? && Enabled(w.value, ops[|ops| - 1]) then Some(Step(w.value, ops[|ops| - 1])) else None
  }

  lemma {:induction false} CopiesPick(lists: map<int, seq<Ref>>, keys: set<int>, k: int, r: Ref)
    requires keys <= lists.Keys && k in keys
    ensures Copies(lists, keys, r) == multiset(lists[k])[r] + Copies(lists, keys - {k}, r)
  {
    var j :| j in keys && Copies(lists, keys, r) == multiset(lists[j])[r] + Copies(lists, keys - {j}, r);
    if j != k {
      CopiesPick(lists, keys - {j}, k, r);
      CopiesPick(lists, keys - {k}, j, r);
      assert keys - {j} - {k} == keys - {k} - {j};
    }
  }

  lemma {:induction false} CopiesFrame(lists: map<int, seq<Ref>>, other: map<int, seq<Ref>>, keys: set<int>, r: Ref)
    requires keys <= lists.Keys && keys <= other.Keys
    requires forall k | k in keys :: lists[k] == other[k]
    ensures Copies(lists, keys, r) == Copies(other, keys, r)
  {
    if keys != {} {
      HasMember(keys);
      var k :| k in keys;
      CopiesPick(lists, keys, k, r);
      CopiesPick(other, keys, k, r);
      CopiesFrame(lists, other, keys - {k}, r);
    }
  }

  ghost function CopiesIn(lists: map<int, seq<Ref>>, k: int, r: Ref): nat {
    if k in lists then multiset(lists[k])[r] else 0
  }

  lemma CopiesSplit(lists: map<int, seq<Ref>>, k: int, r: Ref)
    ensures Copies(lists, lists.Keys, r) == Copies(lists, lists.Keys - {k}, r) + CopiesIn(lists, k, r)
  {
    if k in lists {
      CopiesPick(lists, lists.Keys, k, r);
    } else {
      assert lists.Keys - {k} == lists.Keys;
    }
  }

  /** Writing or dropping one container changes the total by that container. */
  lemma CopiesChange(lists: map<int, seq<Ref>>, other: map<int, seq<Ref>>, k: int, r: Ref)
    requires lists.Keys - {k} == other.Keys - {k}
    requires forall j | j in lists.Keys - {k} :: lists[j] == other[j]
    ensures Copies(lists, lists.Keys, r) - CopiesIn(lists, k, r) ==
            Copies(other, other.Keys, r) - CopiesIn(other, k, r)
  {
    CopiesSplit(lists, k, r);
    CopiesSplit(other, k, r);
    CopiesFrame(lists, other, lists.Keys - {k}, r);
  }

  lemma AddedIsTidy(w: World, a: int, id: Id)
    requires Tidy(w) && a in w.lists
    ensures Tidy(Added(w, a, id))
  {
    var w' := Added(w, a, id);
    assert Ref(w.next, id) !in w.created;
    forall r ensures Accounted(w', r) {
      assert Accounted(w, r);
      CopiesChange(w.lists, w'.lists, a, r);
    }
  }

  lemma ReplacedIsTidy(w: World, a: int, k: nat)
    requires Tidy(w) && a in w.lists && k < |w.lists[a]|
    ensures Tidy(Replaced(w, a, k))
  {
    var w' := Replaced(w, a, k);
    var newer := Ref(w.next, w.lists[a][k].id);
    assert newer !in w.created;
    UpdateConserves(w.lists[a], k, newer);
    forall r ensures Accounted(w', r) {
      assert Accounted(w, r);
      CopiesChange(w.lists, w'.lists, a, r);
      UpdateCounts(w.lists[a], k, newer, r);
    }
  }

  lemma UpdateCounts(l: seq<Ref>, k: nat, x: Ref, r: Ref)
    requires k < |l|
    ensures multiset(l[k := x])[r] + multiset{l[k]}[r] == multiset(l)[r] + multiset{x}[r]
  {
    UpdateConserves(l, k, x);
    assert (multiset(l[k := x]) + multiset{l[k]})[r] == (multiset(l) + multiset{x})[r];
  }

  lemma DetachIsTidy(w: World, a: int, b: int)
    requires Tidy(w) && Enabled(w, Detach(a, b))
    ensures Tidy(Step(w, Detach(a, b)))
  {
    var half := w.lists[b := w.lists[a]];
    forall r ensures Accounted(Step(w, Detach(a, b)), r) {
      assert Accounted(w, r);
      CopiesChange(w.lists, half, b, r);
      CopiesChange(half, half[a := []], a, r);
    }
  }

  lemma MergeIsTidy(w: World, a: int, b: int)
    requires Tidy(w) && Enabled(w, MergeInto(a, b))
    ensures Tidy(Step(w, MergeInto(a, b)))
  {
    var l, c := w.lists[a], w.lists[b];
    var half := w.lists[a := Merge(l, c)];
    MergeIds(l, c);
    forall r ensures Accounted(Step(w, MergeInto(a, b)), r) {
      assert Accounted(w, r);
      CopiesChange(w.lists, half, a, r);
      CopiesChange(half, half - {b}, b, r);
      MergeConserves(l, c);
      assert (multiset(Merge(l, c)) + Displaced(l, c))[r] == (multiset(l) + multiset(c))[r];
    }
  }

  lemma DestroyIsTidy(w: World, a: int)
    requires Tidy(w) && a in w.lists
    ensures Tidy(Step(w, Destroy(a)))
  {
    forall r ensures Accounted(Step(w, Destroy(a)), r) {
      assert Accounted(w, r);
      CopiesChange(w.lists, w.lists - {a}, a, r);
    }
  }

  lemma CreateIsTidy(w: World, a: int)
    requires Tidy(w) && a !in w.lists
    ensures Tidy(Step(w, Create(a)))
  {
    forall r ensures Accounted(Step(w, Create(a)), r) {
      assert Accounted(w, r);
      CopiesChange(w.lists, w.lists[a := []], a, r);
    }
  }

  lemma StepIsTidy(w: World, op: Op)
    requires Tidy(w) && Enabled(w, op)
    ensures Tidy(Step(w, op))
  {
    match op
    case Create(a) =>
      CreateIsTidy(w, a);
    case InsertNew(a, id) =>
      AddedIsTidy(w, a, id);
    case FindOrAddNew(a, id) =>
      if !HasId(w.lists[a], id) {
        AddedIsTidy(w, a, id);
      }
    case ReplaceOrAddNew(a, id) =>
      if HasId(w.lists[a], id) {
        ReplacedIsTidy(w, a, Find(w.lists[a], id));
      } else {
        AddedIsTidy(w, a, id);
      }
    case Detach(a, b) =>
      DetachIsTidy(w, a, b);
    case MergeInto(a, b) =>
      MergeIsTidy(w, a, b);
    case Destroy(a) =>
      DestroyIsTidy(w, a);
  }

  /** Over every program, no report is leaked, shared between containers, or freed
      twice. */
  lemma {:induction false} EveryProgramIsTidy(ops: seq<Op>)
    requires Run(ops).Some?
    ensures Tidy(Run(ops).value)
    decreases |ops|
  {
    if ops != [] {
      EveryProgramIsTidy(ops[..|ops| - 1]);
      StepIsTidy(Run(ops[..|ops| - 1]).value, ops[|ops| - 1]);
    }
  }

  // ------------------------------------------------------------ what operations do

  /** Containers other than these are as before. */
  ghost predicate OthersAsBefore(w: World, v: World, touched: set<int>) {
    && (forall k | k in w.lists && k !in touched :: k in v.lists && v.lists[k] == w.lists[k])
    && (forall k | k in v.lists && k !in touched :: k in w.lists)
  }

  /** Container `a` gained a new report with this id at its end. */
  ghost predicate Appended(w: World, v: World, a: int, id: Id) {
    && a in w.lists && a in v.lists && |v.lists[a]| == |w.lists[a]| + 1 && v.lists[a][..|w.lists[a]|] == w.lists[a]
    && v.lists[a][|w.lists[a]|].id == id && v.lists[a][|w.lists[a]|] !in w.created && v.freed == w.freed
  }

  /** Each operation, by what the containers hold and what is freed. */
  lemma OperationsMoveReports(w: World, op: Op)
    requires Tidy(w) && Enabled(w, op)
    ensures var v := Step(w, op);
            match op
            case Create(a) => a in v.lists && v.lists[a] == [] && OthersAsBefore(w, v, {a}) && v.freed == w.freed
            case InsertNew(a, id) => Appended(w, v, a, id) && OthersAsBefore(w, v, {a})
            case FindOrAddNew(a, id) =>
              (if HasId(w.lists[a], id) then v == w else Appended(w, v, a, id)) && OthersAsBefore(w, v, {a})
            case ReplaceOrAddNew(a, id) =>
              && OthersAsBefore(w, v, {a})
              && (if HasId(w.lists[a], id) then
                    exists k: nat :: FoundAt(w.lists[a], id, k) && k < |w.lists[a]| && Exchanged(w, v, a, k)
                  else Appended(w, v, a, id))
            case Detach(a, b) =>
              && a in v.lists && v.lists[a] == [] && b in v.lists && v.lists[b] == w.lists[a]
              && OthersAsBefore(w, v, {a, b}) && v.freed == w.freed
            case MergeInto(a, b) =>
              && a in v.lists && b !in v.lists && OthersAsBefore(w, v, {a, b})
              && Ids(v.lists[a]) == AppendAllNew(Ids(w.lists[a]), Ids(w.lists[b]))
              && (UniqueIds(w.lists[a]) ==> AsMap(v.lists[a]) == AsMap(w.lists[a]) + AsMap(w.lists[b]))
            case Destroy(a) =>
              a !in v.lists && OthersAsBefore(w, v, {a}) && v.freed == w.freed + multiset(w.lists[a])
  {
    match op
    case ReplaceOrAddNew(a, id) =>
      var k := Find(w.lists[a], id);
      if HasId(w.lists[a], id) {
        assert FoundAt(w.lists[a], id, k) && Exchanged(w, Step(w, op), a, k);
      }
    case MergeInto(a, b) =>
      MergeIds(w.lists[a], w.lists[b]);
      MergeLaws(w.lists[a], w.lists[b]);
    case _ =>
  }

  /** The report at `k` was freed and a new one with its id is in its place. */
  ghost predicate Exchanged(w: World, v: World, a: int, k: nat) {
    && a in w.lists && a in v.lists && k < |w.lists[a]| == |v.lists[a]|
    && v.lists[a] == w.lists[a][k := v.lists[a][k]]
    && v.lists[a][k].id == w.lists[a][k].id && v.lists[a][k] !in w.created
    && v.freed == w.freed + multiset{w.lists[a][k]}
  }

  /** The containers that had an id inserted which they held already, which InsertNew
      only checks in debug builds, and those that took over the list of one. */
  ghost function Doubled(ops: seq<Op>): set<int>
    requires Run(ops).Some?
    decreases |ops|
  {
    if ops == [] then {}
    else DoubledBy(Doubled(ops[..|ops| - 1]), Run(ops[..|ops| - 1]).value, ops[|ops| - 1])
  }

  ghost function DoubledBy(before: set<int>, w: World, op: Op): set<int>
    requires Enabled(w, op)
  {
    match op
    case InsertNew(a, id) => if HasId(w.lists[a], id) then before + {a} else before
    case Detach(a, b) => if a in before then before - {a} + {b} else before
    case MergeInto(_, b) => before - {b}
    case Destroy(a) => before - {a}
    case _ => before
  }

  ghost predicate Marks(doubled: set<int>, w: World) {
    && doubled <= w.lists.Keys
    && forall a | a in w.lists :: UniqueIds(w.lists[a]) <==> a !in doubled
  }

  lemma StepMarks(doubled: set<int>, w: World, op: Op)
    requires Marks(doubled, w) && Enabled(w, op)
    ensures Marks(DoubledBy(doubled, w, op), Step(w, op))
  {
    match op
    case InsertNew(a, id) => AppendedIsUnique(w.lists[a], Ref(w.next, id));
    case FindOrAddNew(a, id) => AppendedIsUnique(w.lists[a], Ref(w.next, id));
    case ReplaceOrAddNew(a, id) =>
      var l, k := w.lists[a], Find(w.lists[a], id);
      if k < |l| {
        ReplacedIsUnique(l, k, Ref(w.next, l[k].id));
      } else {
        AppendedIsUnique(l, Ref(w.next, id));
      }
    case MergeInto(a, b) => MergeIds(w.lists[a], w.lists[b]);
    case _ =>
  }

  /** After every program a container is a map by id exactly when no id was inserted
      that was there already, into it or into a container whose list it took over. */
  lemma {:induction false} EveryContainerIsMapUnlessDoubled(ops: seq<Op>)
    requires Run(ops).Some?
    ensures Marks(Doubled(ops), Run(ops).value)
    decreases |ops|
  {
    if ops != [] {
      EveryContainerIsMapUnlessDoubled(ops[..|ops| - 1]);
      StepMarks(Doubled(ops[..|ops| - 1]), Run(ops[..|ops| - 1]).value, ops[|ops| - 1]);
    }
  }

  // ------------------------------------------------------------ the object

  class ReportHeap {
    ghost var created: set<Ref>
    var freed: multiset<Ref>
    var next: int

    constructor ()
      ensures created == {} && freed == multiset{} && next == 0
    {
      created, freed, next := {}, multiset{}, 0;
    }

    method New(id: Id) returns (r: Ref)
      modifies this
      ensures r == Ref(old(next), id) && next == old(next) + 1
      ensures created == old(created) + {r} && freed == old(freed)
    {
      r := Ref(next, id);
      next := next + 1;
      created := created + {r};
    }

    method Delete(r: Ref)
      modifies this`freed
      ensures freed == old(freed) + multiset{r}
    {
      freed := freed + multiset{r};
    }
  }

  class StatsCollection {
    var list: seq<Ref>
    const heap: ReportHeap
    ghost const classes: StatsType -> IdClass

    ghost predicate Classified(id: Id) {
      id.Class() == classes(id.Type())
    }

    ghost predicate AllClassified(l: seq<Ref>) {
      forall i | 0 <= i < |l| :: Classified(l[i].id)
    }

    ghost predicate Valid()
      reads this
    {
      AllClassified(list)
    }

    constructor (heap: ReportHeap, ghost classes: StatsType -> IdClass)
      ensures Valid() && list == [] && this.heap == heap && this.classes == classes
    {
      list, this.heap, this.classes := [], heap, classes;
    }

    method FindIndex(id: Id) returns (k: nat)
      requires AllClassified(list) && Classified(id)
      ensures k == Find(list, id)
    {
      k := 0;
      while k < |list|
        invariant k <= |list| && forall i | 0 <= i < k :: list[i].id != id
      {
        EqualsIsEquality(list[k].id, id);
        if list[k].id.Equals(id) {
          break;
        }
        k := k + 1;
      }
      FindUnique(list, id, k);
    }

    method Lookup(id: Id) returns (r: Option<Ref>)
      requires Valid() && Classified(id)
      ensures r == if Find(list, id) < |list| then Some(list[Find(list, id)]) else None
      ensures UniqueIds(list) ==> r == if id in AsMap(list) then Some(AsMap(list)[id]) else None
    {
      var k := FindIndex(id);
      if UniqueIds(list) {
        AsMapLookup(list, id);
      }
      r := if k == |list| then None else Some(list[k]);
    }

    method InsertNew(id: Id) returns (r: Ref)
      requires Valid() && Classified(id)
      modifies this, heap
      ensures Valid() && list == old(list) + [r] && r == Ref(old(heap.next), id)
      ensures AsMap(list) == old(AsMap(list))[id := r]
      ensures UniqueIds(list) <==> old(UniqueIds(list)) && !old(HasId(list, id))
      ensures heap.created == old(heap.created) + {r} && heap.freed == old(heap.freed)
    {
      r := heap.New(id);
      list := list + [r];
      assert list[..|list| - 1] == old(list);
      AppendedIsUnique(old(list), r);
    }

    method FindOrAddNew(id: Id) returns (r: Ref)
      requires Valid() && Classified(id)
      modifies this, heap
      ensures Valid() && r.id == id && heap.freed == old(heap.freed)
      ensures UniqueIds(list) <==> old(UniqueIds(list))
      ensures old(UniqueIds(list)) ==> AsMap(list) == old(AsMap(list))[id := r]
      ensures old(HasId(list, id)) ==> list == old(list) && heap.created == old(heap.created)
      ensures !old(HasId(list, id)) ==> list == old(list) + [r] && heap.created == old(heap.created) + {r}
    {
      var found := Lookup(id);
      if UniqueIds(list) {
        AsMapLookup(list, id);
      }
      if found.Some? {
        return found.value;
      }
      r := InsertNew(id);
    }

    method ReplaceOrAddNew(id: Id) returns (r: Ref)
      requires Valid() && Classified(id)
      modifies this, heap
      ensures Valid() && r == Ref(old(heap.next), id)
      ensures list == Upsert(old(list), r) && (UniqueIds(list) <==> old(UniqueIds(list)))
      ensures old(UniqueIds(list)) ==> AsMap(list) == old(AsMap(list))[id := r]
      ensures heap.created == old(heap.created) + {r}
      ensures heap.freed == old(heap.freed) + Evicted(old(list), r)
    {
      var k := FindIndex(id);
      ghost var before := list;
      if k < |list| {
        r := heap.New(list[k].id);
        heap.Delete(list[k]);
        list := list[k := r];
      } else {
        r := InsertNew(id);
      }
      UpsertLaws(before, r);
    }

    method DetachCollection() returns (c: seq<Ref>)
      requires Valid()
      modifies this`list
      ensures Valid() && list == [] && c == old(list)
    {
      c := list;
      list := [];
    }

    /** One round of the loop below. */
    method MergeOne(r: Ref)
      requires Valid() && Classified(r.id)
      modifies this`list, heap`freed
      ensures Valid() && list == Upsert(old(list), r)
      ensures heap.freed == old(heap.freed) + Evicted(old(list), r)
    {
      var k := FindIndex(r.id);
      if k == |list| {
        list := list + [r];
      } else {
        heap.Delete(list[k]);
        list := list[k := r];
      }
    }

    method MergeCollection(c: seq<Ref>)
      requires Valid() && AllClassified(c)
      modifies this`list, heap`freed
      ensures Valid() && list == Merge(old(list), c) && (UniqueIds(list) <==> old(UniqueIds(list)))
      ensures old(UniqueIds(list)) ==> AsMap(list) == old(AsMap(list)) + AsMap(c)
      ensures heap.freed == old(heap.freed) + Displaced(old(list), c)
    {
      ghost var l := list;
      for i := 0 to |c|
        invariant Valid() && list == Merge(l, c[..i])
        invariant heap.freed == old(heap.freed) + Displaced(l, c[..i])
      {
        MergeOne(c[i]);
        assert c[..i + 1][..i] == c[..i];
      }
      assert c[..|c|] == c;
      MergeLaws(l, c);
    }

    /** The destructor. */
    method Destroy()
      requires Valid()
      modifies heap`freed
      ensures heap.freed == old(heap.freed) + multiset(list)
    {
      for i := 0 to |list|
        invariant heap.freed == old(heap.freed) + multiset(list[..i])
      {
        heap.Delete(list[i]);
        assert list[..i + 1] == list[..i] + [list[i]];
      }
      assert list[..|list|] == list;
    }
  }
}
