/** scoped_refptr (api/scoped_refptr.h) over RefCountedBase (api/ref_counted_base.h).

    The abstract semantics is ownership alone: an object that has been referenced
    lives exactly as long as some smart pointer, or some caller of release(),
    owns it.  The class below keeps no such information; it only increments and
    decrements counters in the order the operators do, and is proved to implement
    that semantics for every operator, including self-assignment and self-move. */
module RefCounting {
  import opened Common

  /** Addresses of objects and of smart pointer variables. */
  type Obj = int
  type Slot = int

  datatype Memory = Memory(
    count: map<Obj, int>,           // ref_count_ of the objects that exist
    slots: map<Slot, Option<Obj>>,  // ptr_ of the smart pointers that exist
    owed: multiset<Obj>,            // references handed out by release()
    referenced: set<Obj>,           // objects that had a reference at some time
    destroyed: multiset<Obj>)       // destructor runs

  const EMPTY := Memory(map[], map[], multiset{}, {}, multiset{})

  // ------------------------------------------------------------ ownership

  ghost function Holders(slots: map<Slot, Option<Obj>>, o: Obj): set<Slot> {
    set s | s in slots && slots[s] == Some(o)
  }

  ghost function Owners(slots: map<Slot, Option<Obj>>, owed: multiset<Obj>, o: Obj): nat {
    |Holders(slots, o)| + owed[o]
  }

  ghost function Live(m: Memory, slots: map<Slot, Option<Obj>>, owed: multiset<Obj>, referenced: set<Obj>): set<Obj> {
    set o | o in m.count && (Owners(slots, owed, o) > 0 || o !in referenced)
  }

  /** The memory once ownership has become `slots` and `owed`: referenced objects
      without an owner are gone, the others count their owners. */
  ghost function Settle(m: Memory, slots: map<Slot, Option<Obj>>, owed: multiset<Obj>, referenced: set<Obj>): Memory {
    var live := Live(m, slots, owed, referenced);
    Memory(map o | o in live :: Owners(slots, owed, o), slots, owed, referenced,
           m.destroyed + multiset(m.count.Keys - live))
  }

  datatype Op =
    | New(obj: Obj)
    | ConstructRaw(dst: Slot, p: Option<Obj>)
    | ConstructCopy(dst: Slot, src: Slot)
    | ConstructMove(dst: Slot, src: Slot)
    | Destroy(dst: Slot)
    | AssignRaw(dst: Slot, p: Option<Obj>)
    | AssignCopy(dst: Slot, src: Slot)
    | AssignMove(dst: Slot, src: Slot)
    | Swap(dst: Slot, src: Slot)
    | Release(dst: Slot)
    | ReleaseOwed(obj: Obj)

  /** What C++ demands: variables exist or are new, raw pointers are not dangling,
      and only a caller that was handed a reference gives one back. */
  ghost predicate Enabled(m: Memory, op: Op) {
    match op
    case New(o) => o !in m.count && o !in m.destroyed && o !in m.referenced
    case ConstructRaw(d, p) => d !in m.slots && (p.Some? ==> p.value in m.count)
    case ConstructCopy(d, s) => d !in m.slots && s in m.slots
    case ConstructMove(d, s) => d !in m.slots && s in m.slots
    case Destroy(d) => d in m.slots
    case AssignRaw(d, p) => d in m.slots && (p.Some? ==> p.value in m.count)
    case AssignCopy(d, s) => d in m.slots && s in m.slots
    case AssignMove(d, s) => d in m.slots && s in m.slots
    case Swap(d, s) => d in m.slots && s in m.slots
    case Release(d) => d in m.slots
    case ReleaseOwed(o) => o in m.owed
  }

  ghost function AsSet(p: Option<Obj>): set<Obj> { if p.Some? then {p.value} else {} }

  ghost function AsMultiset(p: Option<Obj>): multiset<Obj> { if p.Some? then multiset{p.value} else multiset{} }

  /** Who owns what, and which objects have been owned so far. */
  datatype Ownership = Ownership(slots: map<Slot, Option<Obj>>, owed: multiset<Obj>, referenced: set<Obj>)

  /** Each operator, as a change of ownership. */
  ghost function Owning(m: Memory, op: Op): Ownership
    requires Enabled(m, op)
  {
    match op
    case New(o) => Ownership(m.slots, m.owed, m.referenced)
    case ConstructRaw(d, p) => Ownership(m.slots[d := p], m.owed, m.referenced + AsSet(p))
    case ConstructCopy(d, s) => Ownership(m.slots[d := m.slots[s]], m.owed, m.referenced)
    case ConstructMove(d, s) => Ownership(m.slots[d := m.slots[s]][s := None], m.owed, m.referenced)
    case Destroy(d) => Ownership(m.slots - {d}, m.owed, m.referenced)
    case AssignRaw(d, p) => Ownership(m.slots[d := p], m.owed, m.referenced + AsSet(p))
    case AssignCopy(d, s) => Ownership(m.slots[d := m.slots[s]], m.owed, m.referenced)
    case AssignMove(d, s) =>
      Ownership(if d == s then m.slots else m.slots[d := m.slots[s]][s := None], m.owed, m.referenced)
    case Swap(d, s) => Ownership(m.slots[d := m.slots[s]][s := m.slots[d]], m.owed, m.referenced)
    case Release(d) => Ownership(m.slots[d := None], m.owed + AsMultiset(m.slots[d]), m.referenced)
    case ReleaseOwed(o) => Ownership(m.slots, m.owed - multiset{o}, m.referenced)
  }

  ghost function Effect(m: Memory, op: Op): Memory
    requires Enabled(m, op)
  {
    var w := Owning(m, op);
    Settle(Allocated(m, op), w.slots, w.owed, w.referenced)
  }

  // ------------------------------------------------------------ every program

  /** Every count is the number of owners, nobody holds a destroyed object, and a
      destroyed object was destroyed once. */
  ghost predicate Sound(m: Memory) {
    && (forall o | o in m.count :: m.count[o] == Owners(m.slots, m.owed, o))
    && (forall o | o in m.count && o in m.referenced :: m.count[o] > 0)
    && (forall s | s in m.slots && m.slots[s].Some? :: m.slots[s].value in m.count && m.slots[s].value in m.referenced)
    && (forall o | o in m.owed :: o in m.count && o in m.referenced)
    && (forall o | o in m.destroyed :: o !in m.count && o in m.referenced && m.destroyed[o] == 1)
  }

  /** The memory after a program, if every operator was allowed when it ran. */
  ghost function Execute(program: seq<Op>): Option<Memory>
    decreases |program|
  {
    if program == [] then Some(EMPTY)
    else
      var m := Execute(program[..|program| - 1]);
      if m.Some? && Enabled(m.value, program[|program| - 1])
      then Some(Effect(m.value, program[|program| - 1]))
      else None
  }

  lemma HeldMeansOwned(slots: map<Slot, Option<Obj>>, owed: multiset<Obj>, o: Obj)
    ensures (exists s :: s in slots && slots[s] == Some(o)) || o in owed ==> Owners(slots, owed, o) > 0
  {
    if s :| s in slots && slots[s] == Some(o) {
      assert s in Holders(slots, o);
    }
  }

  /** Every owner owns an object that exists. */
  ghost predicate Backed(m: Memory, w: Ownership) {
    && m.referenced <= w.referenced
    && (forall s | s in w.slots && w.slots[s].Some? :: w.slots[s].value in m.count && w.slots[s].value in w.referenced)
    && (forall o | o in w.owed :: o in m.count && o in w.referenced)
  }

  lemma SettleIsSound(m: Memory, w: Ownership)
    requires Sound(m) && Backed(m, w)
    ensures Sound(Settle(m, w.slots, w.owed, w.referenced))
  {
    var m' := Settle(m, w.slots, w.owed, w.referenced);
    forall s | s in w.slots && w.slots[s].Some? ensures w.slots[s].value in m'.count {
      HeldMeansOwned(w.slots, w.owed, w.slots[s].value);
    }
    forall o | o in w.owed ensures o in m'.count {
      HeldMeansOwned(w.slots, w.owed, o);
    }
  }

  ghost function Allocated(m: Memory, op: Op): Memory {
    if op.New? then m.(count := m.count[op.obj := 0]) else m
  }

  lemma AllocatedIsSound(m: Memory, op: Op)
    requires Sound(m) && Enabled(m, op)
    ensures Sound(Allocated(m, op))
  {
    if op.New? {
      UnreferencedIsUnowned(m, op.obj);
    }
  }

  lemma OwningIsBacked(m: Memory, op: Op)
    requires Sound(m) && Enabled(m, op)
    ensures Backed(Allocated(m, op), Owning(m, op))
  {
    var w := Owning(m, op);
    forall s | s in w.slots && w.slots[s].Some?
      ensures w.slots[s].value in m.count && w.slots[s].value in w.referenced
    {
      SlotIsBacked(m, op, s);
    }
    forall o | o in w.owed ensures o in m.count && o in w.referenced {
      OwedIsBacked(m, op, o);
    }
  }

  /** A pointer holds what some pointer held before, or a new reference. */
  lemma SlotIsBacked(m: Memory, op: Op, s: Slot)
    requires Sound(m) && Enabled(m, op) && s in Owning(m, op).slots && Owning(m, op).slots[s].Some?
    ensures var o := Owning(m, op).slots[s].value; o in m.count && o in Owning(m, op).referenced
  {
  }

  lemma OwedIsBacked(m: Memory, op: Op, o: Obj)
    requires Sound(m) && Enabled(m, op) && o in Owning(m, op).owed
    ensures o in m.count && o in Owning(m, op).referenced
  {
    assert (op.Release? && m.slots[op.dst] == Some(o)) || o in m.owed;
  }

  lemma EffectIsSound(m: Memory, op: Op)
    requires Sound(m) && Enabled(m, op)
    ensures Sound(Effect(m, op))
  {
    AllocatedIsSound(m, op);
    OwningIsBacked(m, op);
    SettleIsSound(Allocated(m, op), Owning(m, op));
  }

  lemma EffectDestroysUnowned(m: Memory, op: Op, o: Obj)
    requires Sound(m) && Enabled(m, op) && o in m.count
    ensures var m' := Effect(m, op);
            && m'.destroyed[o] == m.destroyed[o] + (if LosesLastOwner(m, m', o) then 1 else 0)
            && (o in m'.count <==> !LosesLastOwner(m, m', o))
  {
    OwningIsBacked(m, op);
    var w := Owning(m, op);
    var a := Allocated(m, op);
    HeldMeansOwned(w.slots, w.owed, o);
    assert m.count[o] == Owners(m.slots, m.owed, o);
    var dead := a.count.Keys - Live(a, w.slots, w.owed, w.referenced);
    assert Effect(m, op).destroyed[o] == m.destroyed[o] + multiset(dead)[o];
    if o !in m.referenced {
      UnreferencedIsUnowned(m, o);
      if o in w.referenced {
        NewlyReferencedIsOwned(m, op, o);
      }
    }
  }

  lemma UnreferencedIsUnowned(m: Memory, o: Obj)
    requires Sound(m) && o !in m.referenced
    ensures Owners(m.slots, m.owed, o) == 0
  {
    forall s | s in m.slots ensures m.slots[s] != Some(o) {
      assert m.slots[s].Some? ==> m.slots[s].value in m.referenced;
    }
    assert Holders(m.slots, o) == {};
  }

  ghost predicate LosesLastOwner(m: Memory, m': Memory, o: Obj) {
    Owners(m.slots, m.owed, o) > 0 && Owners(m'.slots, m'.owed, o) == 0
  }

  lemma NewlyReferencedIsOwned(m: Memory, op: Op, o: Obj)
    requires Enabled(m, op)
    requires o in Owning(m, op).referenced && o !in m.referenced
    ensures Owners(Owning(m, op).slots, Owning(m, op).owed, o) > 0
  {
    HeldMeansOwned(Owning(m, op).slots, Owning(m, op).owed, o);
    assert Owning(m, op).slots[op.dst] == Some(o);
  }

  // ------------------------------------------------------------ cardinalities

  ghost function One(p: Option<Obj>, o: Obj): int { if p == Some(o) then 1 else 0 }

  ghost function At(slots: map<Slot, Option<Obj>>, s: Slot): Option<Obj> { if s in slots then slots[s] else None }

  /** Writing `p` to slot `s` moves one unit of ownership. */
  lemma HoldersUpdate(slots: map<Slot, Option<Obj>>, s: Slot, p: Option<Obj>, o: Obj)
    ensures |Holders(slots[s := p], o)| == |Holders(slots, o)| - One(At(slots, s), o) + One(p, o)
  {
    HoldersWithout(slots, s, o);
    HoldersWithout(slots[s := p], s, o);
    HoldersElsewhere(slots, s, p, o);
  }

  lemma HoldersElsewhere(slots: map<Slot, Option<Obj>>, s: Slot, p: Option<Obj>, o: Obj)
    ensures Holders(slots[s := p], o) - {s} == Holders(slots, o) - {s}
  {
  }

  lemma HoldersWithout(slots: map<Slot, Option<Obj>>, s: Slot, o: Obj)
    ensures |Holders(slots, o)| == |Holders(slots, o) - {s}| + One(At(slots, s), o)
  {
    var a := Holders(slots, o);
    if s in a {
      assert a == (a - {s}) + {s};
    } else {
      assert a == a - {s};
    }
  }

  lemma HoldersRemove(slots: map<Slot, Option<Obj>>, s: Slot, o: Obj)
    requires s in slots
    ensures |Holders(slots - {s}, o)| == |Holders(slots, o)| - One(slots[s], o)
  {
    HoldersWithout(slots, s, o);
    assert Holders(slots - {s}, o) == Holders(slots, o) - {s};
  }

  // ------------------------------------------------------------ counter steps

  ghost function Incremented(count: map<Obj, int>, p: Option<Obj>): map<Obj, int>
    requires p.Some? ==> p.value in count
  {
    if p.Some? then count[p.value := count[p.value] + 1] else count
  }

  lemma IncrementedKeys(count: map<Obj, int>, p: Option<Obj>)
    requires p.Some? ==> p.value in count
    ensures Incremented(count, p).Keys == count.Keys
  {
  }

  ghost function Decremented(count: map<Obj, int>, p: Option<Obj>): map<Obj, int>
    requires p.Some? ==> p.value in count
  {
    if p.None? then count
    else if count[p.value] == 1 then count - {p.value}
    else count[p.value := count[p.value] - 1]
  }

  /** The memory once the counters went up for `gained` and then down for `lost`. */
  ghost predicate Counted(m: Memory, m': Memory, gained: Option<Obj>, lost: Option<Obj>) {
    && (gained.Some? ==> gained.value in m.count)
    && (lost.Some? ==> lost.value in m.count && m.count[lost.value] > 0 && lost.value in m.referenced)
    && m'.referenced == m.referenced + AsSet(gained)
    && m'.count == Decremented(Incremented(m.count, gained), lost)
    && m'.destroyed == m.destroyed + multiset(m.count.Keys - m'.count.Keys)
  }

  lemma CounterAt(count: map<Obj, int>, gained: Option<Obj>, lost: Option<Obj>, o: Obj)
    requires (gained.Some? ==> gained.value in count) && (lost.Some? ==> lost.value in count)
    ensures var after := Decremented(Incremented(count, gained), lost);
            && (o in after ==> o in count && after[o] == count[o] + One(gained, o) - One(lost, o))
            && (o in after <==> o in count && (lost != Some(o) || count[o] + One(gained, o) != 1))
  {
  }

  lemma SettlesAt(m: Memory, m': Memory, gained: Option<Obj>, lost: Option<Obj>, o: Obj)
    requires Sound(m) && Counted(m, m', gained, lost)
    requires Owners(m'.slots, m'.owed, o) == Owners(m.slots, m.owed, o) + One(gained, o) - One(lost, o)
    ensures o in Live(m, m'.slots, m'.owed, m'.referenced) <==> o in m'.count
    ensures o in m'.count ==> m'.count[o] == Owners(m'.slots, m'.owed, o)
  {
    CounterAt(m.count, gained, lost, o);
  }

  /** If ownership moved by the same units as the counters, they settle the memory. */
  lemma CountersSettle(m: Memory, m': Memory, gained: Option<Obj>, lost: Option<Obj>)
    requires Sound(m) && Counted(m, m', gained, lost)
    requires forall o :: Owners(m'.slots, m'.owed, o) == Owners(m.slots, m.owed, o) + One(gained, o) - One(lost, o)
    ensures m' == Settle(m, m'.slots, m'.owed, m'.referenced)
  {
    var live := Live(m, m'.slots, m'.owed, m'.referenced);
    forall o
      ensures (o in live <==> o in m'.count) && (o in m'.count ==> m'.count[o] == Owners(m'.slots, m'.owed, o))
    {
      SettlesAt(m, m', gained, lost, o);
    }
    assert live == m'.count.Keys;
    assert m'.count == Settle(m, m'.slots, m'.owed, m'.referenced).count;
  }

  // ------------------------------------------------------------ what pointers hold

  predicate Holds(slots: map<Slot, Option<Obj>>, s: Slot, p: Option<Obj>) { s in slots && slots[s] == p }

  /** Pointers other than these exist and hold what they did. */
  predicate OthersAsBefore(before: map<Slot, Option<Obj>>, after: map<Slot, Option<Obj>>, touched: set<Slot>) {
    && (forall k | k in before && k !in touched :: k in after && after[k] == before[k])
    && (forall k | k in after && k !in touched :: k in before)
  }

  /** Each operator, run with counters, by what it makes the pointers hold. */
  lemma OperatorsMovePointers(m: Memory, op: Op)
    requires Sound(m) && Enabled(m, op)
    ensures CounterStep(m, op).Some?
    ensures var a, b := m.slots, CounterStep(m, op).value.slots;
            match op
            case New(_) => b == a
            case ConstructRaw(d, p) => Holds(b, d, p) && OthersAsBefore(a, b, {d})
            case ConstructCopy(d, s) => Holds(b, d, a[s]) && OthersAsBefore(a, b, {d})
            case ConstructMove(d, s) => Holds(b, d, a[s]) && Holds(b, s, None) && OthersAsBefore(a, b, {d, s})
            case Destroy(d) => d !in b && OthersAsBefore(a, b, {d})
            case AssignRaw(d, p) => Holds(b, d, p) && OthersAsBefore(a, b, {d})
            case AssignCopy(d, s) => Holds(b, d, a[s]) && OthersAsBefore(a, b, {d})
            case AssignMove(d, s) =>
              Holds(b, d, a[s]) && (d != s ==> Holds(b, s, None)) && OthersAsBefore(a, b, {d, s})
            case Swap(d, s) => Holds(b, d, a[s]) && Holds(b, s, a[d]) && OthersAsBefore(a, b, {d, s})
            case Release(d) => Holds(b, d, None) && OthersAsBefore(a, b, {d})
            case ReleaseOwed(_) => b == a
    ensures CounterStep(m, op).value.owed ==
            match op
            case Release(d) => (if m.slots[d].Some? then m.owed + multiset{m.slots[d].value} else m.owed)
            case ReleaseOwed(o) => m.owed - multiset{o}
            case _ => m.owed
  {
    GainedAndLostExist(m, op);
  }

  // ------------------------------------------------------------ programs on counters

  /** The object whose counter an operator increments. */
  ghost function Gained(m: Memory, op: Op): Option<Obj>
    requires Enabled(m, op)
  {
    match op
    case ConstructRaw(_, p) => p
    case ConstructCopy(_, s) => m.slots[s]
    case AssignRaw(_, p) => p
    case AssignCopy(_, s) => m.slots[s]
    case _ => None
  }

  /** The object whose counter it decrements after that. */
  ghost function Lost(m: Memory, op: Op): Option<Obj>
    requires Enabled(m, op)
  {
    match op
    case Destroy(d) => m.slots[d]
    case AssignRaw(d, _) => m.slots[d]
    case AssignCopy(d, _) => m.slots[d]
    case AssignMove(d, s) => m.slots[s := None][d]
    case ReleaseOwed(o) => Some(o)
    case _ => None
  }

  /** What the operators really do, with counters and nothing else; None when they
      touch the counter of an object that does not exist any more. */
  ghost function CounterStep(m: Memory, op: Op): Option<Memory>
    requires Enabled(m, op)
  {
    var w, gained, lost, count := Owning(m, op), Gained(m, op), Lost(m, op), Allocated(m, op).count;
    if (gained.Some? && gained.value !in count) || (lost.Some? && lost.value !in count) then None
    else
      var after := Decremented(Incremented(count, gained), lost);
      Some(Memory(after, w.slots, w.owed, w.referenced, m.destroyed + multiset(count.Keys - after.Keys)))
  }

  ghost function CounterRun(program: seq<Op>): Option<Memory>
    decreases |program|
  {
    if program == [] then Some(EMPTY)
    else
      var m := CounterRun(program[..|program| - 1]);
      if m.Some? && Enabled(m.value, program[|program| - 1])
      then CounterStep(m.value, program[|program| - 1])
      else None
  }

  lemma GainedAndLostExist(m: Memory, op: Op)
    requires Sound(m) && Enabled(m, op)
    ensures var p := Gained(m, op); p.Some? ==> p.value in m.count
    ensures var p := Lost(m, op); p.Some? ==> p.value in m.count && m.count[p.value] > 0 && p.value in m.referenced
  {
    match op
    case Destroy(d) => HeldIsCounted(m, d);
    case AssignRaw(d, _) => HeldIsCounted(m, d);
    case AssignCopy(d, _) => HeldIsCounted(m, d);
    case AssignMove(d, s) => MovedOutIsCounted(m, d, s);
    case ReleaseOwed(o) => OwedIsCounted(m, o);
    case _ =>
  }

  lemma CopyIsRaw(m: Memory, d: Slot, s: Slot)
    requires Sound(m) && s in m.slots
    ensures m.referenced + AsSet(m.slots[s]) == m.referenced
    ensures Enabled(m, Op.ConstructCopy(d, s)) ==> Owning(m, Op.ConstructCopy(d, s)) == Owning(m, Op.ConstructRaw(d, m.slots[s]))
    ensures Enabled(m, Op.AssignCopy(d, s)) ==> Owning(m, Op.AssignCopy(d, s)) == Owning(m, Op.AssignRaw(d, m.slots[s]))
  {
  }

  /** The ownership that an operator moves is what it counts. */
  lemma OwnersMove(m: Memory, op: Op, o: Obj)
    requires Sound(m) && Enabled(m, op)
    ensures var w := Owning(m, op);
            Owners(w.slots, w.owed, o) == Owners(m.slots, m.owed, o) + One(Gained(m, op), o) - One(Lost(m, op), o)
  {
    match op
    case New(_) =>
    case ConstructRaw(d, p) => HoldersUpdate(m.slots, d, p, o);
    case ConstructCopy(d, s) => HoldersUpdate(m.slots, d, m.slots[s], o);
    case ConstructMove(d, s) => MoveKeepsHolders(m.slots, d, s);
    case Destroy(d) => HoldersRemove(m.slots, d, o);
    case AssignRaw(d, p) => HoldersUpdate(m.slots, d, p, o);
    case AssignCopy(d, s) => HoldersUpdate(m.slots, d, m.slots[s], o);
    case AssignMove(d, s) => MoveAssignHolders(m.slots, d, s);
    case Swap(d, s) => SwapKeepsHolders(m.slots, d, s, o);
    case Release(d) => HoldersUpdate(m.slots, d, None, o);
    case ReleaseOwed(x) =>
  }

  lemma SwapKeepsHolders(slots: map<Slot, Option<Obj>>, d: Slot, s: Slot, o: Obj)
    requires d in slots && s in slots
    ensures |Holders(slots[d := slots[s]][s := slots[d]], o)| == |Holders(slots, o)|
  {
    HoldersUpdate(slots, d, slots[s], o);
    HoldersUpdate(slots[d := slots[s]], s, slots[d], o);
  }

  /** Counting implements ownership: no operator touches a counter that is gone, and
      the objects that survive are those with an owner. */
  lemma CountersImplementOwnership(m: Memory, op: Op)
    requires Sound(m) && Enabled(m, op)
    ensures CounterStep(m, op) == Some(Effect(m, op))
  {
    var a := Allocated(m, op);
    AllocatedIsSound(m, op);
    GainedAndLostExist(m, op);
    var m' := CounterStep(m, op).value;
    ReferencedGrows(m, op);
    assert Counted(a, m', Gained(m, op), Lost(m, op));
    forall o
      ensures Owners(m'.slots, m'.owed, o) == Owners(m.slots, m.owed, o) + One(Gained(m, op), o) - One(Lost(m, op), o)
    {
      OwnersMove(m, op, o);
    }
    CountersSettle(a, m', Gained(m, op), Lost(m, op));
  }

  lemma ReferencedGrows(m: Memory, op: Op)
    requires Sound(m) && Enabled(m, op)
    ensures Owning(m, op).referenced == m.referenced + AsSet(Gained(m, op))
  {
    match op
    case ConstructCopy(d, s) => CopyIsRaw(m, d, s);
    case AssignCopy(d, s) => CopyIsRaw(m, d, s);
    case _ =>
  }

  /** In every reachable state of every program, run with counters, each count is the
      number of owners, nothing that is held is gone, nothing is destroyed twice, and
      no counter was touched after its object was gone. */
  lemma {:induction false} EveryProgramIsSound(program: seq<Op>)
    ensures CounterRun(program) == Execute(program)
    ensures CounterRun(program).Some? ==> Sound(CounterRun(program).value)
    decreases |program|
  {
    if program != [] {
      var before, op := program[..|program| - 1], program[|program| - 1];
      EveryProgramIsSound(before);
      if Execute(before).Some? && Enabled(Execute(before).value, op) {
        CountersImplementOwnership(Execute(before).value, op);
        EffectIsSound(Execute(before).value, op);
      }
    }
  }

  /** Counting runs an object's destructor exactly when an operator takes the object's
      owners from one or more to none, and then once. */
  lemma DestroyedWhenLastOwnerLeaves(m: Memory, op: Op, o: Obj)
    requires Sound(m) && Enabled(m, op) && o in m.count
    ensures CounterStep(m, op).Some?
    ensures var m' := CounterStep(m, op).value;
            && m'.destroyed[o] == m.destroyed[o] + (if LosesLastOwner(m, m', o) then 1 else 0)
            && (o in m'.count <==> !LosesLastOwner(m, m', o))
  {
    CountersImplementOwnership(m, op);
    EffectDestroysUnowned(m, op, o);
  }

  // ------------------------------------------------------------ the counters

  class Heap {
    var count: map<Obj, int>
    var slots: map<Slot, Option<Obj>>
    ghost var owed: multiset<Obj>
    ghost var referenced: set<Obj>
    var destroyed: multiset<Obj>

    ghost function View(): Memory
      reads this
    {
      Memory(count, slots, owed, referenced, destroyed)
    }

    constructor ()
      ensures View() == EMPTY
    {
      count, slots, owed, referenced, destroyed := map[], map[], multiset{}, {}, multiset{};
    }

    method New(o: Obj)
      requires Sound(View()) && Enabled(View(), Op.New(o))
      modifies this
      ensures View() == Effect(old(View()), Op.New(o))
      ensures slots == old(slots) && owed == old(owed) && o in count && count[o] == 0
    {
      ghost var m := View();
      count := count[o := 0];
      assert count.Keys - count.Keys == {};
      CountersImplementOwnership(m, Op.New(o));
    }

    /** RefCountedBase::AddRef, guarded as every caller guards it. */
    method AddRef(p: Option<Obj>)
      requires p.Some? ==> p.value in count
      modifies this`count, this`referenced
      ensures count == Incremented(old(count), p) && referenced == old(referenced) + AsSet(p)
    {
      if p.Some? {
        count := count[p.value := count[p.value] + 1];
      }
      referenced := referenced + AsSet(p);
    }

    /** RefCountedBase::Release: the object is deleted when the counter reaches 0. */
    method ReleaseRef(p: Option<Obj>)
      requires p.Some? ==> p.value in count
      modifies this`count, this`destroyed
      ensures count == Decremented(old(count), p)
      ensures destroyed == old(destroyed) + multiset(old(count).Keys - count.Keys)
    {
      if p.Some? {
        var after := count[p.value] - 1;
        if after == 0 {
          count := count - {p.value};
          destroyed := destroyed + multiset{p.value};
          assert old(count).Keys - count.Keys == {p.value};
        } else {
          count := count[p.value := after];
          assert old(count).Keys - count.Keys == {};
        }
      }
    }

    method ConstructRaw(d: Slot, p: Option<Obj>)
      requires Sound(View()) && Enabled(View(), Op.ConstructRaw(d, p))
      modifies this
      ensures View() == Effect(old(View()), Op.ConstructRaw(d, p))
      ensures Holds(slots, d, p) && OthersAsBefore(old(slots), slots, {d}) && owed == old(owed)
    {
      ghost var m := View();
      slots := slots[d := p];
      AddRef(p);
      Implements(m, Op.ConstructRaw(d, p), View());
    }

    method ConstructCopy(d: Slot, s: Slot)
      requires Sound(View()) && Enabled(View(), Op.ConstructCopy(d, s))
      modifies this
      ensures View() == Effect(old(View()), Op.ConstructCopy(d, s))
      ensures Holds(slots, d, old(slots)[s]) && OthersAsBefore(old(slots), slots, {d}) && owed == old(owed)
    {
      ghost var m := View();
      GainedAndLostExist(m, Op.ConstructCopy(d, s));
      var p := slots[s];
      slots := slots[d := p];
      AddRef(p);
      ReferencedGrows(m, Op.ConstructCopy(d, s));
      Implements(m, Op.ConstructCopy(d, s), View());
    }

    /** release(): the pointer becomes null and its count stays. */
    method Release(d: Slot) returns (p: Option<Obj>)
      requires Sound(View()) && Enabled(View(), Op.Release(d))
      modifies this
      ensures View() == Effect(old(View()), Op.Release(d)) && p == old(slots)[d]
      ensures Holds(slots, d, None) && OthersAsBefore(old(slots), slots, {d}) && owed == old(owed) + AsMultiset(p)
    {
      ghost var m := View();
      p := slots[d];
      slots := slots[d := None];
      owed := owed + AsMultiset(p);
      Implements(m, Op.Release(d), View());
    }

    method ConstructMove(d: Slot, s: Slot)
      requires Sound(View()) && Enabled(View(), Op.ConstructMove(d, s))
      modifies this
      ensures View() == Effect(old(View()), Op.ConstructMove(d, s))
      ensures Holds(slots, d, old(slots)[s]) && Holds(slots, s, None)
      ensures OthersAsBefore(old(slots), slots, {d, s}) && owed == old(owed)
    {
      ghost var m := View();
      var p := slots[s];
      slots := slots[s := None];
      slots := slots[d := p];
      MoveKeepsHolders(m.slots, d, s);
      Implements(m, Op.ConstructMove(d, s), View());
    }

    method Destroy(d: Slot)
      requires Sound(View()) && Enabled(View(), Op.Destroy(d))
      modifies this
      ensures View() == Effect(old(View()), Op.Destroy(d))
      ensures d !in slots && OthersAsBefore(old(slots), slots, {d}) && owed == old(owed)
    {
      ghost var m := View();
      var p := slots[d];
      HeldIsCounted(m, d);
      ReleaseRef(p);
      slots := slots - {d};
      Implements(m, Op.Destroy(d), View());
    }

    /** operator=(T*): AddRef comes first so that self-assignment works. */
    method AssignRaw(d: Slot, p: Option<Obj>)
      requires Sound(View()) && Enabled(View(), Op.AssignRaw(d, p))
      modifies this
      ensures View() == Effect(old(View()), Op.AssignRaw(d, p))
      ensures Holds(slots, d, p) && OthersAsBefore(old(slots), slots, {d}) && owed == old(owed)
    {
      ghost var m := View();
      AssignPointer(d, p);
      Implements(m, Op.AssignRaw(d, p), View());
    }

    method AssignCopy(d: Slot, s: Slot)
      requires Sound(View()) && Enabled(View(), Op.AssignCopy(d, s))
      modifies this
      ensures View() == Effect(old(View()), Op.AssignCopy(d, s))
      ensures Holds(slots, d, old(slots)[s]) && OthersAsBefore(old(slots), slots, {d}) && owed == old(owed)
    {
      ghost var m := View();
      GainedAndLostExist(m, Op.AssignCopy(d, s));
      AssignPointer(d, slots[s]);
      ReferencedGrows(m, Op.AssignCopy(d, s));
      Implements(m, Op.AssignCopy(d, s), View());
    }

    /** The statements that the two assignments share. */
    method AssignPointer(d: Slot, p: Option<Obj>)
      requires d in slots && (p.Some? ==> p.value in count) && (slots[d].Some? ==> slots[d].value in count)
      modifies this
      ensures count == Decremented(Incremented(old(count), p), old(slots)[d]) && slots == old(slots)[d := p]
      ensures referenced == old(referenced) + AsSet(p) && owed == old(owed)
      ensures destroyed == old(destroyed) + multiset(old(count).Keys - count.Keys)
    {
      IncrementedKeys(count, p);
      AddRef(p);
      var previous := slots[d];
      ReleaseRef(previous);
      slots := slots[d := p];
    }

    /** operator=(scoped_refptr&&): a temporary takes `s`, is swapped with `d`, and
        releases what `d` held.  `d` and `s` may be the same pointer. */
    method AssignMove(d: Slot, s: Slot)
      requires Sound(View()) && Enabled(View(), Op.AssignMove(d, s))
      modifies this
      ensures View() == Effect(old(View()), Op.AssignMove(d, s))
      ensures Holds(slots, d, old(slots)[s]) && (d != s ==> Holds(slots, s, None))
      ensures OthersAsBefore(old(slots), slots, {d, s}) && owed == old(owed)
    {
      ghost var m := View();
      var temporary := slots[s];
      slots := slots[s := None];
      var p := slots[d];
      slots := slots[d := temporary];
      temporary := p;
      MovedOutIsCounted(m, d, s);
      ReleaseRef(temporary);
      MoveAssignHolders(m.slots, d, s);
      assert Owning(m, Op.AssignMove(d, s)) == Ownership(slots, owed, referenced);
      Implements(m, Op.AssignMove(d, s), View());
    }

    method Swap(d: Slot, s: Slot)
      requires Sound(View()) && Enabled(View(), Op.Swap(d, s))
      modifies this
      ensures View() == Effect(old(View()), Op.Swap(d, s))
      ensures Holds(slots, d, old(slots)[s]) && Holds(slots, s, old(slots)[d])
      ensures OthersAsBefore(old(slots), slots, {d, s}) && owed == old(owed)
    {
      ghost var m := View();
      var p := slots[d];
      slots := slots[d := slots[s]];
      slots := slots[s := p];
      Implements(m, Op.Swap(d, s), View());
    }

    /** A caller of release() gives its reference back. */
    method ReleaseOwed(o: Obj)
      requires Sound(View()) && Enabled(View(), Op.ReleaseOwed(o))
      modifies this
      ensures View() == Effect(old(View()), Op.ReleaseOwed(o))
      ensures slots == old(slots) && owed == old(owed) - multiset{o}
    {
      ghost var m := View();
      assert Enabled(m, Op.ReleaseOwed(o)) && Lost(m, Op.ReleaseOwed(o)) == Some(o);
      OwedIsCounted(m, o);
      ReleaseRef(Some(o));
      owed := owed - multiset{o};
      assert Owning(m, Op.ReleaseOwed(o)) == Ownership(slots, owed, referenced);
      Implements(m, Op.ReleaseOwed(o), View());
    }
  }

  /** An operator that changed the pointers as specified and counted for what it
      gained and lost did what it should. */
  lemma Implements(m: Memory, op: Op, m': Memory)
    requires Sound(m) && Enabled(m, op) && !op.New?
    requires (Gained(m, op).Some? ==> Gained(m, op).value in m.count) && (Lost(m, op).Some? ==> Lost(m, op).value in m.count)
    requires m'.count == Decremented(Incremented(m.count, Gained(m, op)), Lost(m, op))
    requires Ownership(m'.slots, m'.owed, m'.referenced) == Owning(m, op)
    requires m'.destroyed == m.destroyed + multiset(m.count.Keys - m'.count.Keys)
    ensures m' == Effect(m, op)
  {
    CountersImplementOwnership(m, op);
  }

  /** Any program, run by the operators themselves. */
  method Perform(program: seq<Op>) returns (h: Heap)
    requires Execute(program).Some?
    ensures fresh(h) && Execute(program) == Some(h.View()) && Sound(h.View())
  {
    h := new Heap();
    for i := 0 to |program|
      invariant fresh(h) && Execute(program[..i]) == Some(h.View()) && Sound(h.View())
    {
      ExecutesNext(program, i, h.View());
      PerformOne(h, program[i]);
    }
    assert program[..|program|] == program;
  }

  lemma ExecutesNext(program: seq<Op>, i: nat, m: Memory)
    requires i < |program| && Execute(program).Some? && Execute(program[..i]) == Some(m) && Sound(m)
    ensures Enabled(m, program[i]) && Execute(program[..i + 1]) == Some(Effect(m, program[i]))
    ensures Sound(Effect(m, program[i]))
  {
    assert program[..i + 1][..i] == program[..i];
    ExecutesPrefix(program, i + 1);
    EffectIsSound(m, program[i]);
  }

  method PerformOne(h: Heap, op: Op)
    requires Sound(h.View()) && Enabled(h.View(), op)
    modifies h
    ensures h.View() == Effect(old(h.View()), op)
  {
    match op
    case New(o) => h.New(o);
    case ConstructRaw(d, p) => h.ConstructRaw(d, p);
    case ConstructCopy(d, s) => h.ConstructCopy(d, s);
    case ConstructMove(d, s) => h.ConstructMove(d, s);
    case Destroy(d) => h.Destroy(d);
    case AssignRaw(d, p) => h.AssignRaw(d, p);
    case AssignCopy(d, s) => h.AssignCopy(d, s);
    case AssignMove(d, s) => h.AssignMove(d, s);
    case Swap(d, s) => h.Swap(d, s);
    case Release(d) => var _ := h.Release(d);
    case ReleaseOwed(o) => h.ReleaseOwed(o);
  }

  lemma {:induction false} ExecutesPrefix(program: seq<Op>, n: nat)
    requires n <= |program| && Execute(program).Some?
    ensures Execute(program[..n]).Some?
    decreases |program|
  {
    if n == |program| {
      assert program[..n] == program;
    } else {
      var before := program[..|program| - 1];
      assert before[..n] == program[..n];
      ExecutesPrefix(before, n);
    }
  }

  lemma HeldIsCounted(m: Memory, d: Slot)
    requires Sound(m) && d in m.slots
    ensures var p := m.slots[d];
            p.Some? ==> p.value in m.count && m.count[p.value] > 0 && p.value in m.referenced
  {
    if m.slots[d].Some? {
      HeldMeansOwned(m.slots, m.owed, m.slots[d].value);
    }
  }

  lemma OwedIsCounted(m: Memory, o: Obj)
    requires Sound(m) && o in m.owed
    ensures o in m.count && m.count[o] > 0 && o in m.referenced
  {
    HeldMeansOwned(m.slots, m.owed, o);
  }

  lemma MovedOutIsCounted(m: Memory, d: Slot, s: Slot)
    requires Sound(m) && d in m.slots && s in m.slots
    ensures var p := m.slots[s := None][d];
            p.Some? ==> p.value in m.count && m.count[p.value] > 0 && p.value in m.referenced
  {
    HeldIsCounted(m, d);
  }

  lemma MoveKeepsHolders(slots: map<Slot, Option<Obj>>, d: Slot, s: Slot)
    requires d !in slots && s in slots
    ensures slots[s := None][d := slots[s]] == slots[d := slots[s]][s := None]
    ensures forall o :: |Holders(slots[s := None][d := slots[s]], o)| == |Holders(slots, o)|
  {
    forall o ensures |Holders(slots[s := None][d := slots[s]], o)| == |Holders(slots, o)| {
      HoldersUpdate(slots, s, None, o);
      HoldersUpdate(slots[s := None], d, slots[s], o);
    }
  }

  /** The move assignment's three writes, with what the temporary ends up with. */
  lemma MoveAssignHolders(slots: map<Slot, Option<Obj>>, d: Slot, s: Slot)
    requires d in slots && s in slots
    ensures var after := slots[s := None][d := slots[s]];
            && after == (if d == s then slots else slots[d := slots[s]][s := None])
            && forall o :: |Holders(after, o)| == |Holders(slots, o)| - One(slots[s := None][d], o)
  {
    var after := slots[s := None][d := slots[s]];
    forall o ensures |Holders(after, o)| == |Holders(slots, o)| - One(slots[s := None][d], o) {
      HoldersUpdate(slots, s, None, o);
      HoldersUpdate(slots[s := None], d, slots[s], o);
    }
  }
}
