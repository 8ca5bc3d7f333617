/** Pages coming and going: a new chunk, a migration's new folio, and one it gives back unused. */
module FolioFresh {
  import opened Basics
  import opened FolioMachine
  import opened FolioInvariant
  import opened FolioFrames
  import opened FolioLight
  import opened FolioCore
  import opened FolioHeavy

  /** A program point that neither holds nor relies on a folio. */
  predicate Far(pc: Pc, f: FolioId) {
    && OwnRefs(pc, f) == 0 && !OwnsLock(pc, f) && !Targets(pc, f)
    && !(pc.Join? && !pc.j.NextJoin? && pc.p == f)
  }

  /** A page nobody refers to is bare: no private word, no mapping, no lock, no place behind an entry. */
  predicate Bare(x: Folio) {
    && x.priv.NoPriv? && !x.mapped && !x.alloc && !x.frozen && x.count == 0 && x.home.None?
    && x.grabs == multiset{} && x.lock.None?
  }

  lemma FreeFar(s: State, f: FolioId, u: Task)
    requires Inv(s) && IsFree(Fo(s, f))
    ensures Far(At(s, u), f)
  {
    var x := Fo(s, f);
    assert CountOk(s, f) && RefTie(s, u, f) && PcOk(s, u);
    assert |x.grabs| == 0;
    assert x.grabs[u] == 0;
  }

  lemma FreeBare(s: State, f: FolioId)
    requires Inv(s) && IsFree(Fo(s, f))
    ensures Bare(Fo(s, f))
  {
    var x := Fo(s, f);
    assert CountOk(s, f) && HomeOk(s, f);
    if x.home.Some? {
      var m := Ab(s, x.home.value.abd).mtx;
      if m.Some? { FreeFar(s, f, m.value); }
      if x.lock.Some? { FreeFar(s, f, x.lock.value); }
    }
    if x.lock.Some? { FreeNotLocked(s, f, x.lock.value); }
  }

  lemma FreeNotLocked(s: State, f: FolioId, u: Task)
    requires Inv(s) && IsFree(Fo(s, f)) && Fo(s, f).home.None?
    ensures Fo(s, f).lock != Some(u)
  {
    FreeFar(s, f, u);
    assert LockTie(s, u, f);
  }

  /** The buffer a program point works on. */
  predicate Uses(pc: Pc, a: AbdId) {
    match pc
    case Building(b) => b == a
    case Grab(_, b, _, _, _) => b == a
    case Join(b, _, _, _) => b == a
    case Free(b, _, _, _) => b == a
    case Drop(_, b, _, _, _) => b == a
    case Claim(_, b, _, _, _) => b == a
    case Move(_, _, b, m) => !m.Isolated? && !m.Done? && b == a
    case _ => false
  }

  /** Folio `f` is new to everyone, and only buffer `a` changes, if any. */
  ghost predicate FreshStep(s: State, s': State, t: Task, f: FolioId, a: AbdId) {
    && Bare(Fo(s, f)) && OthersStay(s, s', t)
    && (forall g: FolioId :: g != f ==> Eased(s, s', g))
    && (forall b: AbdId :: b != a ==> Ab(s', b) == Ab(s, b))
  }

  lemma FreshKept(s: State, s': State, t: Task, f: FolioId, a: AbdId, pc: Pc)
    requires FreshStep(s, s', t, f, a) && Far(pc, f)
    requires Ab(s', a) == Ab(s, a) || !Uses(pc, a)
    ensures Kept(s, s', pc)
  {
    forall g: FolioId | g != f ensures WhollyKept(Fo(s, g), Fo(s', g)) { assert Eased(s, s', g); }
    if (pc.Reading? || pc.Drop? || pc.Join? || pc.Free? || pc.Claim?) && pc.p != f { assert Eased(s, s', pc.p); }
  }

  // ----- a new chunk -----

  /** Nobody but its builder uses a buffer that is not published. */
  lemma UnbuiltUnused(s: State, t: Task, u: Task)
    requires Inv(s) && At(s, t).Building? && u != t
    ensures !Uses(At(s, u), At(s, t).a)
  {
    assert PcOk(s, t) && PcOk(s, u) && Alone(s, t, u, At(s, t).a);
  }

  lemma AddFolios(s: State, t: Task, f: FolioId, nr: nat, b: Bytes)
    requires Inv(s) && At(s, t).Building? && Bare(Fo(s, f)) && nr >= 1
    ensures FoliosOk(DoAddChunk(s, At(s, t).a, f, nr, b))
  {
    var s' := DoAddChunk(s, At(s, t).a, f, nr, b);
    assert PcOk(s, t);
    forall g: FolioId ensures CountOk(s', g) && HomeOk(s', g) && HomelessOk(s', g) {
      assert CountOk(s, g) && HomeOk(s, g) && HomelessOk(s, g);
      if g != f {
        assert Fo(s', g) == Fo(s, g);
        if Fo(s, g).home.Some? { assert Ab(s', Fo(s, g).home.value.abd).mtx == Ab(s, Fo(s, g).home.value.abd).mtx; }
      }
    }
  }

  lemma AddEntries(s: State, t: Task, f: FolioId, nr: nat, b: Bytes)
    requires Inv(s) && At(s, t).Building? && Bare(Fo(s, f))
    ensures EntriesOk(DoAddChunk(s, At(s, t).a, f, nr, b))
  {
    var s' := DoAddChunk(s, At(s, t).a, f, nr, b);
    assert PcOk(s, t);
    forall c: AbdId, i: nat ensures EntryOk(s', c, i) { assert EntryOk(s, c, i); }
    forall c: AbdId, k: nat, i: nat ensures Apart(s', c, k, i) { assert Apart(s, c, k, i); }
  }

  lemma AddTies(s: State, t: Task, f: FolioId, nr: nat, b: Bytes)
    requires Inv(s) && At(s, t).Building? && Bare(Fo(s, f))
    requires forall u: Task :: Far(At(s, u), f)
    ensures TiesOk(DoAddChunk(s, At(s, t).a, f, nr, b))
  {
    var a := At(s, t).a;
    var s' := DoAddChunk(s, a, f, nr, b);
    assert PcOk(s, t);
    forall u: Task, g: FolioId ensures LockTie(s', u, g) && RefTie(s', u, g) {
      assert LockTie(s, u, g) && RefTie(s, u, g) && MtxTie(s, u, a) && Far(At(s, u), f);
    }
    forall u: Task, c: AbdId ensures MtxTie(s', u, c) { assert MtxTie(s, u, c); }
    forall u: Task, v: Task, c: AbdId ensures Alone(s', u, v, c) { assert Alone(s, u, v, c); }
  }

  lemma KeepAddChunk(s: State, t: Task, f: FolioId, nr: nat, b: Bytes)
    requires Inv(s) && At(s, t).Building? && IsFree(Fo(s, f)) && nr >= 1
    ensures Inv(DoAddChunk(s, At(s, t).a, f, nr, b))
  {
    var a := At(s, t).a;
    var s' := DoAddChunk(s, a, f, nr, b);
    FreeBare(s, f);
    forall u: Task ensures Far(At(s, u), f) { FreeFar(s, f, u); }
    AddFolios(s, t, f, nr, b);
    AddEntries(s, t, f, nr, b);
    AddTies(s, t, f, nr, b);
    assert FreshStep(s, s', t, f, a) by {
      forall g: FolioId | g != f ensures Eased(s, s', g) { assert Fo(s', g) == Fo(s, g); }
    }
    forall u: Task ensures PcOk(s', u) {
      assert PcOk(s, u);
      if u != t {
        UnbuiltUnused(s, t, u);
        FreshKept(s, s', t, f, a, At(s, u));
        PcFrame(s, s', u);
      }
    }
  }

  // ----- a migration's new folio -----

  /** The state once a migration has its new folio. */
  function Allocated(s: State, t: Task, f: FolioId): State
    requires At(s, t).Move?
  {
    Go(SetF(s, f, NewTarget(Fo(s, At(s, t).src).nr, t)), t, At(s, t).(dst := f, m := Ready))
  }

  /** While its source is mapped the target is no threat to anything but itself. */
  lemma TargetEased(s: State, s': State, t: Task, f: FolioId, g: FolioId)
    requires g != f && Fo(s', g) == Fo(s, g) && OthersStay(s, s', t)
    requires Targets(At(s', t), g) ==> Targets(At(s, t), g)
    requires FillsInto(At(s', t), g) ==> FillsInto(At(s, t), g)
    ensures Eased(s, s', g)
  {
  }

  lemma AllocKept(s: State, t: Task, f: FolioId, u: Task)
    requires Inv(s) && MoveIs(At(s, t), Isolated) && IsFree(Fo(s, f)) && u != t
    ensures Kept(s, Allocated(s, t, f), At(s, u))
  {
    var s' := Allocated(s, t, f);
    FreeBare(s, f);
    FreeFar(s, f, u);
    forall g: FolioId | g != f ensures Eased(s, s', g) { TargetEased(s, s', t, f, g); }
    FreshKept(s, s', t, f, 0, At(s, u));
  }

  lemma AllocCore(s: State, t: Task, f: FolioId)
    requires Inv(s) && MoveIs(At(s, t), Isolated) && Bare(Fo(s, f)) && Far(At(s, t), f)
    ensures CoreStep(s, Allocated(s, t, f), t, f, At(s, t).src)
  {
    var s' := Allocated(s, t, f);
    forall g: FolioId | g != f && g != At(s, t).src ensures Untouched(s, s', t, g) { }
  }

  lemma AllocTies(s: State, t: Task, f: FolioId)
    requires Inv(s) && MoveIs(At(s, t), Isolated) && Bare(Fo(s, f)) && Far(At(s, t), f)
    ensures var s' := Allocated(s, t, f);
            var p := At(s, t).src;
            && LockTie(s', t, p) && RefTie(s', t, p) && LockTie(s', t, f) && RefTie(s', t, f)
            && forall g: FolioId :: g != f && g != p ==> SameHeld(At(s, t), At(s', t), g, Fo(s, g).home)
  {
    var p := At(s, t).src;
    assert LockTie(s, t, p) && RefTie(s, t, p);
  }

  lemma AllocFolios(s: State, t: Task, f: FolioId)
    requires Inv(s) && MoveIs(At(s, t), Isolated) && Bare(Fo(s, f)) && Far(At(s, t), f)
    ensures var s' := Allocated(s, t, f);
            var p := At(s, t).src;
            && CountOk(s', p) && HomeOk(s', p) && HomelessOk(s', p) && CountOk(s', f) && HomelessOk(s', f)
  {
    var p := At(s, t).src;
    assert PcOk(s, t) && CountOk(s, p) && HomeOk(s, p) && LockTie(s, t, p);
  }

  lemma KeepMgAlloc(s: State, t: Task, f: FolioId)
    requires Inv(s) && MoveIs(At(s, t), Isolated) && IsFree(Fo(s, f)) && f !in Ab(s, At(s, t).a).sg
    ensures Inv(Allocated(s, t, f))
  {
    var s' := Allocated(s, t, f);
    FreeBare(s, f);
    FreeFar(s, f, t);
    forall u: Task | u != t ensures Kept(s, s', At(s, u)) { AllocKept(s, t, f, u); }
    AllocCore(s, t, f);
    AllocTies(s, t, f);
    AllocFolios(s, t, f);
    AllocPc(s, t, f);
    CoreKeeps(s, s', t, f, At(s, t).src);
  }

  lemma AllocPc(s: State, t: Task, f: FolioId)
    requires Inv(s) && MoveIs(At(s, t), Isolated) && Bare(Fo(s, f)) && Far(At(s, t), f) && f !in Ab(s, At(s, t).a).sg
    ensures PcOk(Allocated(s, t, f), t)
  {
    assert PcOk(s, t) && HomeOk(s, At(s, t).src);
  }

  /** The state once a migration has given its new folio back unused. */
  function Backed(s: State, t: Task): State
    requires At(s, t).Move?
  {
    Go(SetF(s, At(s, t).dst, PutAlloc(Unlock(Fo(s, At(s, t).dst)))), t, Reclaim(At(s, t).src, At(s, t).a, Back))
  }

  lemma BusyCore(s: State, t: Task)
    requires Inv(s) && MoveIs(At(s, t), Ready)
    ensures CoreStep(s, Backed(s, t), t, At(s, t).dst, At(s, t).src)
  {
    assert PcOk(s, t) && LockTie(s, t, At(s, t).dst);
    forall g: FolioId | g != At(s, t).dst && g != At(s, t).src ensures Untouched(s, Backed(s, t), t, g) { }
  }

  lemma BusyFolios(s: State, t: Task)
    requires Inv(s) && MoveIs(At(s, t), Ready)
    ensures var s' := Backed(s, t);
            var pc := At(s, t);
            && CountOk(s', pc.src) && HomeOk(s', pc.src) && HomelessOk(s', pc.src)
            && CountOk(s', pc.dst) && HomeOk(s', pc.dst) && HomelessOk(s', pc.dst)
  {
    var pc := At(s, t);
    assert PcOk(s, t) && CountOk(s, pc.src) && HomeOk(s, pc.src) && LockTie(s, t, pc.src);
    assert CountOk(s, pc.dst) && HomelessOk(s, pc.dst) && LockTie(s, t, pc.dst) && RefTie(s, t, pc.dst);
  }

  lemma BusyTies(s: State, t: Task)
    requires Inv(s) && MoveIs(At(s, t), Ready)
    ensures var s' := Backed(s, t);
            var pc := At(s, t);
            && LockTie(s', t, pc.src) && RefTie(s', t, pc.src) && LockTie(s', t, pc.dst) && RefTie(s', t, pc.dst)
            && forall g: FolioId :: g != pc.dst && g != pc.src ==> SameHeld(pc, At(s', t), g, Fo(s, g).home)
  {
    var pc := At(s, t);
    assert PcOk(s, t) && LockTie(s, t, pc.src) && RefTie(s, t, pc.src);
    assert LockTie(s, t, pc.dst) && RefTie(s, t, pc.dst) && HomelessOk(s, pc.dst);
  }

  /** The source was busy: the target goes back. */
  lemma KeepMgBusy(s: State, t: Task)
    requires Inv(s) && MoveIs(At(s, t), Ready)
    ensures Inv(Backed(s, t))
  {
    var pc := At(s, t);
    assert PcOk(s, t);
    forall u: Task | u != t ensures Kept(s, Backed(s, t), At(s, u)) { BusyKept(s, t, u); }
    BusyCore(s, t);
    BusyFolios(s, t);
    BusyTies(s, t);
    CoreKeeps(s, Backed(s, t), t, pc.dst, pc.src);
  }

  lemma BusyKept(s: State, t: Task, u: Task)
    requires Inv(s) && MoveIs(At(s, t), Ready) && u != t
    ensures Kept(s, Backed(s, t), At(s, u))
  {
    var pc := At(s, t);
    assert PcOk(s, t) && PcOk(s, u) && LockTie(s, t, pc.dst);
    LockedIgnored(s, t, pc.dst, u);
    forall g: FolioId | g != pc.dst ensures Eased(s, Backed(s, t), g) { TargetEased(s, Backed(s, t), t, pc.dst, g); }
    AsideKept(s, Backed(s, t), pc.dst, pc.dst, At(s, u));
  }
}
