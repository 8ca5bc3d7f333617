module HeaderCharge {
  /**
   What the ARC is charged for its full headers: arc-hdr-accounting.patch, against the constructor's accounting it
   replaced, with the constructor and destructor calls of slab-mobility.patch.

   Allocating and freeing a header takes several statements, and any number of tasks may be at any of them. Each
   object is in the hands of one task at a time, so where the tasks stand is the status of the objects.
   */

  const HDR_FULL_SIZE: nat := 240

  /** - `Unused`: on its slab's freelist
      - `Raw`, `Built`: handed out for a header or a marker, not constructed yet; constructed, not charged yet
      - `Header`: charged, and the ARC's
      - `Leaving`, `Refunded`, `Unmade`: about to be refunded; refunded, not destructed yet; destructed, not freed yet
      - `Spare`, `SpareBuilt`, `SpareUnmade`: the replacement a move was given, likewise
      - `Vacated`: the object a header has moved out of, not destructed yet */
  datatype Status =
    | Unused | Raw | Built | Header | Leaving | Refunded | Unmade
    | Spare | SpareBuilt | SpareUnmade | Vacated

  /** `charge`: the header charge. `construct`: what it would be if every constructor raised it and every destructor
      lowered it. `made`: how many objects slabs were ever created with. */
  datatype State = State(slots: map<nat, Status>, charge: int, construct: int, made: nat)

  datatype Event =
    | NewSlab(objs: set<nat>)           // spl_kmem_cache_init_cb runs over every object
    | DropSlab(objs: set<nat>)          // and no destructor when the slab goes
    | Allocate(x: nat) | Construct(x: nat) | Consume(x: nat)
    | Leave(x: nat) | Return(x: nat) | Destruct(x: nat) | Free(x: nat)
    | AllocateSpare(x: nat) | Move(x: nat, spare: nat) | Refuse(x: nat)

  const INIT := State(map[], 0, 0, 0)

  predicate Has(s: State, x: nat, st: Status) { x in s.slots && s.slots[x] == st }

  /** The statements in the order the code has them: allocate, construct, consume; return, destruct, free. */
  predicate Can(s: State, e: Event) {
    match e
    case NewSlab(objs) => forall x :: x in objs ==> x !in s.slots
    case DropSlab(objs) => forall x :: x in objs ==> Has(s, x, Unused)
    case Allocate(x) => Has(s, x, Unused)
    case Construct(x) => Has(s, x, Raw) || Has(s, x, Spare)
    case Consume(x) => Has(s, x, Built)
    case Leave(x) => Has(s, x, Header)
    case Return(x) => Has(s, x, Leaving)
    case Destruct(x) => Has(s, x, Refunded) || Has(s, x, Vacated)
    case Free(x) => Has(s, x, Unmade) || Has(s, x, SpareUnmade)
    case AllocateSpare(x) => Has(s, x, Unused)
    case Move(x, spare) => Has(s, x, Header) && Has(s, spare, SpareBuilt)
    case Refuse(x) => Has(s, x, SpareBuilt)
  }

  function Put(s: State, x: nat, st: Status): State { s.(slots := s.slots[x := st]) }

  function Do(s: State, e: Event): State {
    match e
    case NewSlab(objs) =>
      State(s.slots + map x | x in objs :: Unused, s.charge, s.construct + HDR_FULL_SIZE * |objs|, s.made + |objs|)
    case DropSlab(objs) => s.(slots := s.slots - objs)
    case Allocate(x) => Put(s, x, Raw)
    case Construct(x) =>
      Put(s.(construct := s.construct + HDR_FULL_SIZE), x, if Has(s, x, Raw) then Built else SpareBuilt)
    case Consume(x) => Put(s.(charge := s.charge + HDR_FULL_SIZE), x, Header)
    case Leave(x) => Put(s, x, Leaving)
    case Return(x) => Put(s.(charge := s.charge - HDR_FULL_SIZE), x, Refunded)
    case Destruct(x) =>
      Put(s.(construct := s.construct - HDR_FULL_SIZE), x, if Has(s, x, Refunded) then Unmade else SpareUnmade)
    case Free(x) => Put(s, x, Unused)
    case AllocateSpare(x) => Put(s, x, Spare)
    case Move(x, spare) => Put(Put(s, x, Vacated), spare, Header)
    case Refuse(x) => Put(s.(construct := s.construct - HDR_FULL_SIZE), x, SpareUnmade)
  }

  function Run(run: seq<Event>): State {
    if run == [] then INIT else Do(Run(run[..|run| - 1]), run[|run| - 1])
  }

  predicate Legal(run: seq<Event>) {
    run == [] || (Legal(run[..|run| - 1]) && Can(Run(run[..|run| - 1]), run[|run| - 1]))
  }

  // ----- counting -----

  /** `Owned`: the objects the ARC has, from their allocation to their being freed. `Between`: those of them not
      charged yet, or no longer. `Again`: the objects constructed once more than destructed, apart from when their slab
      was made. */
  datatype Kind = Owned | Between | Again

  predicate Is(st: Status, k: Kind) {
    match k
    case Owned => st.Raw? || st.Built? || st.Header? || st.Leaving? || st.Refunded? || st.Unmade?
    case Between => st.Raw? || st.Built? || st.Refunded? || st.Unmade?
    case Again => st.Built? || st.Header? || st.Leaving? || st.Refunded? || st.SpareBuilt? || st.Vacated?
  }

  function Those(slots: map<nat, Status>, k: Kind): set<nat> { set x | x in slots && Is(slots[x], k) }

  function One(b: bool): nat { if b then 1 else 0 }

  lemma Without(a: set<nat>, x: nat)
    ensures |a| == |a - {x}| + One(x in a)
  {
    if x in a { assert a == (a - {x}) + {x}; } else { assert a - {x} == a; }
  }

  lemma PutCounts(slots: map<nat, Status>, x: nat, st: Status, k: Kind)
    requires x in slots
    ensures |Those(slots[x := st], k)| == |Those(slots, k)| + One(Is(st, k)) - One(Is(slots[x], k))
  {
    var was, now := Those(slots, k), Those(slots[x := st], k);
    assert was - {x} == now - {x};
    assert x in was <==> Is(slots[x], k);
    assert x in now <==> Is(st, k);
    Without(was, x);
    Without(now, x);
  }

  /** A slab's unused objects count for nothing. */
  lemma SlabCounts(s: State, e: Event, k: Kind)
    requires Can(s, e) && (e.NewSlab? || e.DropSlab?)
    ensures Those(Do(s, e).slots, k) == Those(s.slots, k)
  {
    var was, now := Those(s.slots, k), Those(Do(s, e).slots, k);
    forall x ensures x in was <==> x in now { }
  }

  // ----- what every run keeps -----

  /** The charge is that of the objects the ARC has, but for those in between; the constructor's accounting counts the
      objects constructed again, and every object any slab was ever created with. */
  predicate Balanced(s: State) {
    && Those(s.slots, Between) <= Those(s.slots, Owned)
    && s.charge == HDR_FULL_SIZE * (|Those(s.slots, Owned)| - |Those(s.slots, Between)|)
    && s.construct == HDR_FULL_SIZE * (s.made + |Those(s.slots, Again)|)
  }

  lemma PutKeeps(s: State, x: nat, st: Status, charge: int, construct: int)
    requires Balanced(s) && x in s.slots
    requires charge == s.charge + HDR_FULL_SIZE * (One(Charged(st)) - One(Charged(s.slots[x])))
    requires construct == s.construct + HDR_FULL_SIZE * (One(Is(st, Again)) - One(Is(s.slots[x], Again)))
    ensures Balanced(State(s.slots[x := st], charge, construct, s.made))
  {
    PutCounts(s.slots, x, st, Owned);
    PutCounts(s.slots, x, st, Between);
    PutCounts(s.slots, x, st, Again);
  }

  predicate Charged(st: Status) { Is(st, Owned) && !Is(st, Between) }

  lemma MoveKeeps(s: State, x: nat, spare: nat)
    requires Balanced(s) && Can(s, Move(x, spare))
    ensures Balanced(Do(s, Move(x, spare)))
  {
    var s1 := State(s.slots[x := Vacated], s.charge - HDR_FULL_SIZE, s.construct, s.made);
    PutKeeps(s, x, Vacated, s.charge - HDR_FULL_SIZE, s.construct);
    PutKeeps(s1, spare, Header, s.charge, s.construct);
  }

  lemma StepKeeps(s: State, e: Event)
    requires Balanced(s) && Can(s, e)
    ensures Balanced(Do(s, e))
  {
    var s' := Do(s, e);
    if e.NewSlab? || e.DropSlab? {
      SlabCounts(s, e, Owned);
      SlabCounts(s, e, Between);
      SlabCounts(s, e, Again);
    } else if e.Move? {
      MoveKeeps(s, e.x, e.spare);
    } else {
      PutKeeps(s, e.x, s'.slots[e.x], s'.charge, s'.construct);
    }
  }

  lemma {:induction false} RunKeeps(run: seq<Event>)
    requires Legal(run)
    ensures Balanced(Run(run))
  {
    if run != [] {
      RunKeeps(run[..|run| - 1]);
      StepKeeps(Run(run[..|run| - 1]), run[|run| - 1]);
    }
  }

  /** In every run the charge falls short of the full headers the ARC has by those not charged yet or refunded already,
      and is exactly theirs whenever there are none, however often slots were constructed or destructed. */
  lemma ChargeIsOwned(run: seq<Event>)
    requires Legal(run)
    ensures var s := Run(run);
            && s.charge == HDR_FULL_SIZE * (|Those(s.slots, Owned)| - |Those(s.slots, Between)|)
            && (s.charge == HDR_FULL_SIZE * |Those(s.slots, Owned)| <==> Those(s.slots, Between) == {})
  {
    RunKeeps(run);
  }

  /** Nobody is allocating, freeing or moving. */
  predicate AtRest(s: State) { forall x :: x in s.slots ==> s.slots[x].Unused? || s.slots[x].Header? }

  /** At rest the constructor's accounting exceeds the charge by the size of every object any slab was ever created
      with: it is right if and only if there never was a slab, and never loses the excess again. */
  lemma ConstructorExcess(run: seq<Event>)
    requires Legal(run) && AtRest(Run(run))
    ensures var s := Run(run);
            && s.charge == HDR_FULL_SIZE * |Those(s.slots, Owned)|
            && s.construct == s.charge + HDR_FULL_SIZE * s.made
  {
    RunKeeps(run);
    var s := Run(run);
    assert Those(s.slots, Between) == {};
    assert Those(s.slots, Again) == Those(s.slots, Owned);
  }

  /** With nothing owned nothing is charged. */
  lemma NothingOwnedNothingCharged(run: seq<Event>)
    requires Legal(run) && Those(Run(run).slots, Owned) == {}
    ensures Run(run).charge == 0
  {
    RunKeeps(run);
  }
}
