/**
 What every reachable state of FolioMachine satisfies, as predicates over one folio, one entry,
 one task, or one pair at a time, so that a step only has to re-establish what it touches.
 */
module FolioInvariant {
  import opened Basics
  import opened FolioMachine

  // ----- what a program point holds -----

  /** The folio a claimer was called on, if any. */
  function RfOf(pc: Pc): Option<FolioId> {
    match pc
    case Grab(w, _, _, _, _) => if w.Claimer? then w.rf else None
    case Drop(w, _, _, _, _) => if w.Claimer? then w.rf else None
    case Claim(rf, _, _, _, _) => rf
    case _ => None
  }

  /** Whether a claimer at `pc` holds entry `j` of `a` referenced and locked as part of its sweep. */
  predicate Sweeps(pc: Pc, a: AbdId, j: nat) {
    match pc
    case Grab(w, b, i, _, _) => w.Claimer? && b == a && j < i
    case Drop(w, b, i, _, _) => w.Claimer? && b == a && i < j
    case Claim(_, b, i, _, k) =>
      b == a && (if k.Evicting? then i <= j else if k.Undo? then k.lo <= j < i else j < i)
    case _ => false
  }

  /** The folios a program point has locked, apart from sweeps. */
  predicate OwnsLock(pc: Pc, f: FolioId) {
    RfOf(pc) == Some(f) ||
    match pc
    case Spec(p, locked) => locked && f == p
    case Join(_, _, p, j) => (j.Adding? || j.Added?) && f == p
    case Free(_, _, p, r) => r.Locked? && f == p
    case Drop(_, _, _, p, d) => (d.Mine? || d.Removed?) && f == p
    case Reclaim(p, _, _) => f == p
    case Claim(_, _, _, p, k) => k.Got? && f == p
    case Move(src, dst, _, m) => f == src || (!m.Isolated? && f == dst)
    case _ => false
  }

  function One(b: bool): nat { if b then 1 else 0 }

  /** The references a program point holds, apart from sweeps. */
  function OwnRefs(pc: Pc, f: FolioId): nat {
    One(RfOf(pc) == Some(f)) +
    match pc
    case Spec(p, _) => One(f == p)
    case Grab(_, _, _, p, g) => One(g.Checks? && f == p)
    case Reading(p, _) => One(f == p)
    case Free(_, _, p, r) => One((r.Locking? || r.Locked?) && f == p)
    case Drop(_, _, _, p, _) => One(f == p)
    case Reclaim(p, _, _) => One(f == p)
    case Claim(_, _, _, p, k) => One((k.Have? || k.Got?) && f == p)
    case Move(src, _, _, _) => One(f == src)
    case _ => 0
  }

  predicate SweepHolds(pc: Pc, f: FolioId, home: Option<Entry>) {
    home.Some? && Sweeps(pc, home.value.abd, home.value.idx) && RfOf(pc) != Some(f)
  }

  /** Exactly the folio locks a task at `pc` holds. */
  predicate Locks(pc: Pc, f: FolioId, home: Option<Entry>) { OwnsLock(pc, f) || SweepHolds(pc, f, home) }

  /** Exactly how many references a task at `pc` holds on a folio. */
  function Refs(pc: Pc, f: FolioId, home: Option<Entry>): nat { OwnRefs(pc, f) + One(SweepHolds(pc, f, home)) }

  /** The buffer whose abd_mtx a task at `pc` holds. */
  function MtxOf(pc: Pc): Option<AbdId> {
    match pc
    case Grab(w, a, _, _, _) => if w.Reader? then None else Some(a)
    case Join(a, _, _, _) => Some(a)
    case Free(a, _, _, r) => if r.Waiting? then None else Some(a)
    case Drop(_, a, _, _, _) => Some(a)
    case Claim(_, a, _, _, _) => Some(a)
    case _ => None
  }

  // ----- folios -----

  /** The references the protocol itself owns: the allocation's, the private word's, and one
      per page while the mapping holds the folio. */
  function Share(x: Folio): nat { One(x.alloc) + One(!x.priv.NoPriv?) + (if x.mapped then x.nr else 0) }

  function Holder(s: State, f: FolioId): Pc {
    if Fo(s, f).lock.Some? then At(s, Fo(s, f).lock.value) else Idle
  }

  function MtxHolder(s: State, a: AbdId): Pc { if Ab(s, a).mtx.Some? then At(s, Ab(s, a).mtx.value) else Idle }

  predicate InFreeze(pc: Pc, f: FolioId) { pc.Move? && (pc.m.Frozen? || pc.m.Switched?) && pc.src == f }

  /** A folio whose private word names the buffer although the mapping does not hold it. */
  predicate Between(pc: Pc, f: FolioId) {
    (pc.Join? && pc.j.Adding? && pc.p == f) || (pc.Drop? && pc.d.Removed? && pc.p == f) ||
    (pc.Move? && (pc.m.Switched? || pc.m.Unfrozen? || pc.m.Copied?) && pc.src == f)
  }

  /** A folio the mapping holds while its allocation reference is not dropped yet. */
  predicate Joining(h: Pc, m: Pc, f: FolioId) {
    (h.Join? && h.j.Added? && h.p == f) || (h.Move? && h.m.Done? && h.dst == f) ||
    (m.Join? && m.j.Putting? && m.p == f)
  }

  /** A migration target whose bytes are not copied yet. */
  predicate FillsInto(pc: Pc, f: FolioId) {
    pc.Move? && (pc.m.Ready? || pc.m.Frozen? || pc.m.Switched? || pc.m.Unfrozen?) && pc.dst == f
  }

  /** A migration's new folio. */
  predicate Targets(pc: Pc, f: FolioId) { pc.Move? && !pc.m.Isolated? && pc.dst == f }

  /** A chunk that never joined, its marker gone and its allocation reference not dropped yet. */
  predicate Unmarks(pc: Pc, f: FolioId) { pc.Drop? && pc.d.Unmarked? && pc.p == f }

  ghost predicate CountOk(s: State, f: FolioId) {
    var x := Fo(s, f);
    && x.nr >= 1
    && (!x.frozen ==> x.count == Share(x) + |x.grabs|)
    && (x.frozen ==> x.count == 0 && InFreeze(Holder(s, f), f))
  }

  ghost predicate HomeOk(s: State, f: FolioId) {
    var x := Fo(s, f);
    x.home.Some? ==>
      var b := Ab(s, x.home.value.abd);
      var i := x.home.value.idx;
      var h := Holder(s, f);
      && b.alive && b.gone <= i < |b.sg| && b.sg[i] == f
      && (x.priv.NoPriv? ==> (MoveIs(h, Moved) && h.src == f) || Unmarks(MtxHolder(s, x.home.value.abd), f))
      && (x.priv.Names? ==> x.priv.abd == x.home.value.abd && b.built && b.lru)
      && (x.priv.Marker? ==> x.alloc && !x.mapped)
      && (x.priv.Names? && !x.mapped ==> Between(h, f))
      && (x.mapped && x.alloc ==> Joining(h, MtxHolder(s, x.home.value.abd), f))
  }

  ghost predicate HomelessOk(s: State, f: FolioId) {
    var x := Fo(s, f);
    x.home.None? ==>
      && !x.priv.Marker?
      && (x.priv.Names? ==> MoveIs(Holder(s, f), Moved) && Holder(s, f).dst == f)
  }

  ghost predicate EntryOk(s: State, a: AbdId, i: nat) {
    var x := Ab(s, a);
    && |x.sg| == |x.data|
    && x.gone <= |x.sg|
    && (x.dying || x.mtx.Some? ==> x.lru)
    && (x.gone > 0 ==> x.dying && (x.alive ==> x.mtx.Some?))
    && (x.alive && x.gone <= i < |x.sg| ==>
          && Fo(s, x.sg[i]).home == Some(Entry(a, i)) && Fo(s, x.sg[i]).bytes == x.data[i]
          && (!x.lru ==> Fo(s, x.sg[i]).priv.Marker?))
  }

  /** An entry already given back never names the same page as one still in use. */
  ghost predicate Apart(s: State, a: AbdId, k: nat, i: nat) {
    var x := Ab(s, a);
    x.alive && k < x.gone <= i < |x.sg| ==> x.sg[k] != x.sg[i]
  }

  // ----- tasks -----

  ghost predicate WhoOk(s: State, w: Who, a: AbdId, i: nat) {
    var x := Ab(s, a);
    && x.alive && x.built && i < |x.sg|
    && (w.Reader? ==> !x.dying)
    && (w.Freer? ==> x.dying && x.gone == i)
    && (w.Claimer? ==> x.gone == 0 && RfOk(s, w.rf, a))
  }

  /** The folio reclaim was called on still stands behind an entry of the buffer. */
  ghost predicate RfOk(s: State, rf: Option<FolioId>, a: AbdId) {
    rf.Some? ==>
      var x := Fo(s, rf.value);
      x.home.Some? && x.home.value.abd == a && x.mapped && x.priv == Names(a)
  }

  /** The same while the buffer is being given up: afterwards only the mapping holds it. */
  ghost predicate RfFreed(s: State, rf: Option<FolioId>, a: AbdId, i: nat) {
    rf.Some? ==>
      var x := Fo(s, rf.value);
      && x.mapped
      && (x.home.Some? ==> x.home.value.abd == a && x.home.value.idx >= i && x.priv == Names(a))
      && (x.home.None? ==> x.priv.NoPriv?)
  }

  predicate Builds(pc: Pc, a: AbdId) { pc.Building? && pc.a == a }

  predicate AwaitsFree(pc: Pc, a: AbdId) { pc.Free? && pc.r.Waiting? && pc.a == a }

  /** Whoever is freeing the buffer, from its decision on. */
  predicate GivesUp(pc: Pc, a: AbdId) {
    match pc
    case Free(b, _, _, _) => b == a
    case Grab(w, b, _, _, _) => w.Freer? && b == a
    case Drop(_, b, _, _, _) => b == a
    case Claim(_, b, _, _, k) => k.Evicting? && b == a
    case _ => false
  }

  ghost predicate Behind(s: State, f: FolioId, a: AbdId, i: nat) { Fo(s, f).home == Some(Entry(a, i)) }

  /** The folio was taken through an entry that meanwhile names another one. */
  ghost predicate Left(s: State, f: FolioId) { Fo(s, f).home.None? && !Targets(Holder(s, f), f) }

  ghost predicate SpecOk(s: State, t: Task) {
    match At(s, t)
    case Building(a) =>
      var x := Ab(s, a);
      x.alive && !x.built && !x.dying && x.gone == 0 && x.mtx.None?
    case Spec(p, locked) => locked ==> Fo(s, p).mapped
    case VerifyFailed => false
    case _ => true
  }

  ghost predicate ReadOk(s: State, t: Task) {
    match At(s, t)
    case Grab(w, a, i, _, _) => WhoOk(s, w, a, i)
    case Reading(p, want) => Fo(s, p).bytes == want && !FillsInto(Holder(s, p), p)
    case _ => true
  }

  /** The chunks the join loop has not reached still carry the marker. */
  ghost predicate RestUnjoined(s: State, a: AbdId, i: nat) {
    var x := Ab(s, a);
    && x.alive && x.built && x.lru && x.gone == 0 && i <= |x.sg|
    && forall j :: i <= j < |x.sg| ==> Fo(s, x.sg[j]).priv.Marker?
  }

  ghost predicate JoinOk(s: State, t: Task) {
    match At(s, t)
    case Join(a, i, p, j) =>
      if j.NextJoin? then RestUnjoined(s, a, i)
      else
        && RestUnjoined(s, a, i + 1) && Behind(s, p, a, i)
        && Fo(s, p).alloc && Fo(s, p).priv == Names(a) && (j.Adding? <==> !Fo(s, p).mapped)
        && !Targets(Holder(s, p), p)
    case _ => true
  }

  ghost predicate FreeOk(s: State, t: Task) {
    match At(s, t)
    case Free(a, i, p, r) =>
      var x := Ab(s, a);
      && x.alive && x.built && x.dying && x.gone == i
      && (r.Locking? || r.Locked? ==> Behind(s, p, a, i) || Left(s, p))
      && (if r.Waiting? then i == 0 else if r.NextFree? then i <= |x.sg| else i < |x.sg|)
    case Drop(w, a, i, p, d) => DropOk(s, w, a, i, p, d)
    case _ => true
  }

  ghost predicate DropOk(s: State, w: Who, a: AbdId, i: nat, p: FolioId, d: DropAt) {
    var b := Ab(s, a);
    var x := Fo(s, p);
    && b.alive && b.built && b.dying && i < |b.sg|
    && !w.Reader?
    && (w.Claimer? ==> w.rf != Some(p) && RfFreed(s, w.rf, a, i))
    && (if d.LastPut? then b.gone == i + 1 && x.home.None? && x.priv.NoPriv? && !x.mapped && !x.alloc
        else b.gone == i && Behind(s, p, a, i))
    && (d.Removed? ==> x.priv == Names(a) && !x.mapped && !x.alloc)
    && (d.Unlocked? ==> x.priv.Marker?)
    && (d.Unmarked? ==> x.priv.NoPriv? && !x.mapped && x.alloc)
    && (d.LastPut? ==> !Targets(Holder(s, p), p))
  }

  ghost predicate ClaimOk(s: State, t: Task) {
    match At(s, t)
    case Reclaim(p, a, c) =>
      && (c.Entered? || c.Counted? || c.Refused? ==> RfOk(s, Some(p), a))
      && (c.Released? ==> Fo(s, p).mapped && Fo(s, p).priv.NoPriv? && Fo(s, p).home.None?)
      && (c.Back? ==> Fo(s, p).mapped || Fo(s, p).home.None?)
    case Claim(rf, a, i, p, k) =>
      var x := Ab(s, a);
      && x.alive && x.built && i <= |x.sg|
      && (if k.Evicting? then x.dying && x.gone == i && RfFreed(s, rf, a, i) else x.gone == 0 && RfOk(s, rf, a))
      && (k.Undo? ==> k.lo <= i)
      && (k.Have? || k.Got? ==> i < |x.sg| && (Behind(s, p, a, i) || (Left(s, p) && rf != Some(p))))
      && (k.Got? ==> rf != Some(p))
    case _ => true
  }

  ghost predicate MoveOk(s: State, t: Task) {
    match At(s, t)
    case Move(src, dst, a, m) => if m.Isolated? then RfOk(s, Some(src), a) else MovingOk(s, src, dst, a, m)
    case _ => true
  }

  ghost predicate MovingOk(s: State, src: FolioId, dst: FolioId, a: AbdId, m: MoveAt) {
    var x := Fo(s, src);
    var y := Fo(s, dst);
    && src != dst && y.alloc
    && (if m.Done? then y.home.Some? && y.mapped && y.priv == Names(a) && x.home.None? && Share(x) == 0
        else
          && y.home.None? && y.nr == x.nr && dst !in Ab(s, a).sg && Ab(s, a).built && Ab(s, a).lru
          && x.home.Some? && x.home.value.abd == a
          && (x.mapped <==> (m.Ready? || m.Frozen?))
          && (y.mapped <==> !(m.Ready? || m.Frozen?))
          && (if m.Moved? then x.priv.NoPriv? && y.priv == Names(a) else x.priv == Names(a) && y.priv.NoPriv?)
          && (!m.Ready? ==> !x.alloc)
          && (m.Frozen? || m.Switched? ==> x.frozen && |x.grabs| == 1)
          && (m.Copied? || m.Moved? ==> y.bytes == x.bytes))
  }

  ghost predicate PcOk(s: State, t: Task) {
    SpecOk(s, t) && ReadOk(s, t) && JoinOk(s, t) && FreeOk(s, t) && ClaimOk(s, t) && MoveOk(s, t)
  }

  // ----- the invariant -----

  ghost predicate LockTie(s: State, t: Task, f: FolioId) {
    Fo(s, f).lock == Some(t) <==> Locks(At(s, t), f, Fo(s, f).home)
  }

  ghost predicate RefTie(s: State, t: Task, f: FolioId) {
    Fo(s, f).grabs[t] == Refs(At(s, t), f, Fo(s, f).home)
  }

  ghost predicate MtxTie(s: State, t: Task, a: AbdId) { Ab(s, a).mtx == Some(t) <==> MtxOf(At(s, t)) == Some(a) }

  /** One task builds a buffer, and one task frees it. */
  ghost predicate Alone(s: State, t: Task, u: Task, a: AbdId) {
    && (Builds(At(s, t), a) && Builds(At(s, u), a) ==> t == u)
    && (AwaitsFree(At(s, t), a) && GivesUp(At(s, u), a) ==> t == u)
  }

  ghost predicate FoliosOk(s: State) {
    && (forall f: FolioId :: CountOk(s, f))
    && (forall f: FolioId :: HomeOk(s, f))
    && (forall f: FolioId :: HomelessOk(s, f))
  }

  ghost predicate EntriesOk(s: State) {
    && (forall a: AbdId, i: nat :: EntryOk(s, a, i))
    && (forall a: AbdId, k: nat, i: nat :: Apart(s, a, k, i))
  }

  ghost predicate TiesOk(s: State) {
    && (forall t: Task, f: FolioId :: LockTie(s, t, f))
    && (forall t: Task, f: FolioId :: RefTie(s, t, f))
    && (forall t: Task, a: AbdId :: MtxTie(s, t, a))
    && (forall t: Task, u: Task, a: AbdId :: Alone(s, t, u, a))
  }

  ghost predicate PcsOk(s: State) { forall t: Task :: PcOk(s, t) }

  ghost predicate Inv(s: State) { FoliosOk(s) && EntriesOk(s) && TiesOk(s) && PcsOk(s) }
}
