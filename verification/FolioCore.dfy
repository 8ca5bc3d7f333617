/**
 Steps that change what a folio is: its private word, its mapping, its freezing or its home. What
 remains to be shown of such a step is that nobody else leans on the folios it changed.
 */
module FolioCore {
  import opened Basics
  import opened FolioMachine
  import opened FolioInvariant
  import opened FolioFrames
  import opened FolioLight

  /** The folios whose facts read this program point. */
  predicate Concerns(pc: Pc, f: FolioId) {
    (pc.Join? && !pc.j.NextJoin? && pc.p == f) || (pc.Drop? && (pc.d.Removed? || pc.d.Unmarked?) && pc.p == f) ||
    (pc.Move? && !pc.m.Isolated? && (pc.src == f || pc.dst == f))
  }

  /** Task `t` changes folios `p` and `q` only (they may be the same one) and no buffer. */
  ghost predicate CoreStep(s: State, s': State, t: Task, p: FolioId, q: FolioId) {
    && s'.abds == s.abds
    && OthersStay(s, s', t)
    && (forall f: FolioId :: f != p && f != q ==> Untouched(s, s', t, f))
    && OthersHold(t, Fo(s, p), Fo(s', p)) && OthersHold(t, Fo(s, q), Fo(s', q))
  }

  ghost predicate Untouched(s: State, s': State, t: Task, f: FolioId) {
    Fo(s', f) == Fo(s, f) && !Concerns(At(s, t), f) && !Concerns(At(s', t), f)
  }

  /** The folio keeps its place behind an entry, with the buffer's bytes. */
  ghost predicate PlaceKept(s: State, s': State, f: FolioId) {
    var x := Fo(s, f);
    var y := Fo(s', f);
    y.home == x.home && (x.home.Some? ==> y.bytes == x.bytes && (Ab(s, x.home.value.abd).lru || y.priv.Marker?))
  }

  /** What a task at `pc` takes for granted about folio `p`, beyond its bytes. */
  ghost predicate Leans(s: State, pc: Pc, p: FolioId) {
    RfOf(pc) == Some(p) ||
    match pc
    case Spec(f, locked) => locked && f == p
    case Join(a, i, f, j) => (!j.NextJoin? && f == p) || (Fo(s, p).priv.Marker? && p in Ab(s, a).sg)
    case Drop(_, _, _, f, _) => f == p
    case Reclaim(f, _, _) => f == p
    case Move(src, dst, _, m) => src == p || (!m.Isolated? && dst == p)
    case _ => false
  }

  /** A reader of the folio sees the same bytes, and nobody is about to overwrite them. */
  ghost predicate ReadKept(s: State, s': State, pc: Pc, f: FolioId) {
    pc.Reading? && pc.p == f ==>
      Fo(s', f).bytes == Fo(s, f).bytes && (FillsInto(Holder(s', f), f) ==> FillsInto(Holder(s, f), f))
  }

  ghost predicate Ignores(s: State, s': State, pc: Pc, f: FolioId) {
    !Leans(s, pc, f) && ReadKept(s, s', pc, f)
  }

  lemma CoreHolder(s: State, s': State, t: Task, p: FolioId, q: FolioId, f: FolioId)
    requires CoreStep(s, s', t, p, q) && f != p && f != q
    ensures Holder(s', f) == Holder(s, f) || (!Concerns(Holder(s', f), f) && !Concerns(Holder(s, f), f))
    ensures Fo(s', f) == Fo(s, f)
  {
    assert Untouched(s, s', t, f);
  }

  /** The folio's lock holder is no more of a threat to its bytes, or to its being a plain chunk, than before. */
  ghost predicate Eased(s: State, s': State, f: FolioId) {
    && Fo(s', f) == Fo(s, f)
    && (FillsInto(Holder(s', f), f) ==> FillsInto(Holder(s, f), f))
    && (Targets(Holder(s', f), f) ==> Targets(Holder(s, f), f))
  }

  /** Only folios `p` and `q` change, and a task at `pc` leans on neither. */
  ghost predicate Aside(s: State, s': State, p: FolioId, q: FolioId, pc: Pc) {
    && s'.abds == s.abds
    && (forall f: FolioId :: f != p && f != q ==> Eased(s, s', f))
    && Ignores(s, s', pc, p) && Ignores(s, s', pc, q)
    && (Stands(pc, p) ==> StandsKept(s, s', p)) && (Stands(pc, q) ==> StandsKept(s, s', q))
  }

  lemma AsideKeptJoin(s: State, s': State, p: FolioId, q: FolioId, pc: Pc)
    requires Aside(s, s', p, q, pc) && pc.Join?
    ensures Kept(s, s', pc)
  {
    forall f: FolioId | f != p && f != q ensures WhollyKept(Fo(s, f), Fo(s', f)) { assert Eased(s, s', f); }
    assert pc.p != p && pc.p != q ==> Eased(s, s', pc.p);
  }

  lemma AsideKeptHolder(s: State, s': State, p: FolioId, q: FolioId, pc: Pc)
    requires Aside(s, s', p, q, pc) && (pc.Reading? || pc.Drop?)
    ensures Kept(s, s', pc)
  {
    forall f: FolioId | f != p && f != q ensures WhollyKept(Fo(s, f), Fo(s', f)) { assert Eased(s, s', f); }
    assert pc.p != p && pc.p != q ==> Eased(s, s', pc.p);
  }

  lemma AsideKept(s: State, s': State, p: FolioId, q: FolioId, pc: Pc)
    requires Aside(s, s', p, q, pc)
    ensures Kept(s, s', pc)
  {
    if pc.Join? {
      AsideKeptJoin(s, s', p, q, pc);
    } else if pc.Reading? || pc.Drop? {
      AsideKeptHolder(s, s', p, q, pc);
    } else {
      forall f: FolioId | f != p && f != q ensures WhollyKept(Fo(s, f), Fo(s', f)) { assert Eased(s, s', f); }
      if (pc.Free? || pc.Claim?) && pc.p != p && pc.p != q { assert Eased(s, s', pc.p); }
    }
  }

  lemma CoreKept(s: State, s': State, t: Task, p: FolioId, q: FolioId, u: Task)
    requires CoreStep(s, s', t, p, q) && u != t
    requires Ignores(s, s', At(s, u), p) && Ignores(s, s', At(s, u), q)
    requires StandsKept(s, s', p) && StandsKept(s, s', q)
    ensures Kept(s, s', At(s, u))
  {
    forall f: FolioId | f != p && f != q ensures Eased(s, s', f) { CoreHolder(s, s', t, p, q, f); }
    AsideKept(s, s', p, q, At(s, u));
  }

  lemma CoreFolio(s: State, s': State, t: Task, p: FolioId, q: FolioId, f: FolioId)
    requires CountOk(s, f) && HomeOk(s, f) && HomelessOk(s, f)
    requires CoreStep(s, s', t, p, q) && f != p && f != q
    ensures CountOk(s', f) && HomeOk(s', f) && HomelessOk(s', f)
  {
    CoreHolder(s, s', t, p, q, f);
    if Fo(s, f).home.Some? {
      var m := Ab(s, Fo(s, f).home.value.abd).mtx;
      assert Untouched(s, s', t, f);
    }
  }

  lemma CoreEntries(s: State, s': State, t: Task, p: FolioId, q: FolioId)
    requires EntriesOk(s) && CoreStep(s, s', t, p, q)
    requires PlaceKept(s, s', p) && PlaceKept(s, s', q)
    ensures EntriesOk(s')
  {
    forall a: AbdId, i: nat ensures EntryOk(s', a, i) {
      assert EntryOk(s, a, i);
      if i < |Ab(s, a).sg| && Ab(s, a).sg[i] != p && Ab(s, a).sg[i] != q {
        assert Untouched(s, s', t, Ab(s, a).sg[i]);
      }
    }
    forall a: AbdId, k: nat, i: nat ensures Apart(s', a, k, i) { assert Apart(s, a, k, i); }
  }

  lemma CoreTies(s: State, s': State, t: Task, p: FolioId, q: FolioId)
    requires TiesOk(s) && CoreStep(s, s', t, p, q)
    requires Fo(s', p).home == Fo(s, p).home && Fo(s', q).home == Fo(s, q).home
    requires MtxOf(At(s', t)) == MtxOf(At(s, t)) && NoNewRole(At(s, t), At(s', t))
    requires LockTie(s', t, p) && RefTie(s', t, p) && LockTie(s', t, q) && RefTie(s', t, q)
    requires forall f: FolioId :: f != p && f != q ==> SameHeld(At(s, t), At(s', t), f, Fo(s, f).home)
    ensures TiesOk(s')
  {
    forall u: Task, f: FolioId ensures LockTie(s', u, f) && RefTie(s', u, f) {
      assert LockTie(s, u, f) && RefTie(s, u, f);
      if f != p && f != q {
        assert Untouched(s, s', t, f);
        assert SameHeld(At(s, t), At(s', t), f, Fo(s, f).home);
      }
    }
    forall u: Task, a: AbdId ensures MtxTie(s', u, a) { assert MtxTie(s, u, a); }
    OtherTies(s, s', t);
  }

  lemma CoreKeeps(s: State, s': State, t: Task, p: FolioId, q: FolioId)
    requires Inv(s) && CoreStep(s, s', t, p, q)
    requires PlaceKept(s, s', p) && PlaceKept(s, s', q)
    requires MtxOf(At(s', t)) == MtxOf(At(s, t)) && NoNewRole(At(s, t), At(s', t))
    requires LockTie(s', t, p) && RefTie(s', t, p) && LockTie(s', t, q) && RefTie(s', t, q)
    requires forall f: FolioId :: f != p && f != q ==> SameHeld(At(s, t), At(s', t), f, Fo(s, f).home)
    requires CountOk(s', p) && HomeOk(s', p) && HomelessOk(s', p)
    requires CountOk(s', q) && HomeOk(s', q) && HomelessOk(s', q)
    requires forall u: Task :: u != t ==> Kept(s, s', At(s, u))
    requires PcOk(s', t)
    ensures Inv(s')
  {
    forall f: FolioId ensures CountOk(s', f) && HomeOk(s', f) && HomelessOk(s', f) {
      assert CountOk(s, f) && HomeOk(s, f) && HomelessOk(s, f);
      if f != p && f != q { CoreFolio(s, s', t, p, q, f); }
    }
    CoreEntries(s, s', t, p, q);
    CoreTies(s, s', t, p, q);
    forall u: Task ensures PcOk(s', u) {
      assert PcOk(s, u);
      if u != t {
        assert Kept(s, s', At(s, u));
        PcFrame(s, s', u);
      }
    }
  }

  /** Nobody leans on a folio that `t` has locked, save through the mutex of its buffer. */
  lemma LockedIgnored(s: State, t: Task, f: FolioId, u: Task)
    requires Inv(s) && u != t && Fo(s, f).lock == Some(t)
    requires Fo(s, f).home.Some? ==> Fo(s, f).mapped || MtxOf(At(s, t)) == Some(Fo(s, f).home.value.abd)
    requires Fo(s, f).home.None? ==> Fo(s, f).mapped || Targets(At(s, t), f)
    ensures !Leans(s, At(s, u), f) || (JoinIs(At(s, u), Putting) && At(s, u).p == f)
  {
    assert PcOk(s, u) && LockTie(s, u, f) && RefTie(s, u, f) && HomeOk(s, f) && HomelessOk(s, f);
    var pc := At(s, u);
    if pc.Join? || pc.Drop? {
      assert MtxTie(s, u, pc.a) && MtxTie(s, t, pc.a);
      if pc.Join? && f in Ab(s, pc.a).sg {
        var j :| 0 <= j < |Ab(s, pc.a).sg| && Ab(s, pc.a).sg[j] == f;
        assert EntryOk(s, pc.a, j);
      }
    }
  }

  lemma MarkerNotLockedBy(s: State, t: Task, a: AbdId, i: nat, f: FolioId, u: Task)
    requires Inv(s) && MtxOf(At(s, t)) == Some(a) && Behind(s, f, a, i) && Fo(s, f).priv.Marker?
    requires !Locks(At(s, t), f, Fo(s, f).home)
    ensures Fo(s, f).lock != Some(u)
  {
    assert HomeOk(s, f) && PcOk(s, u) && LockTie(s, u, f) && LockTie(s, t, f) && MtxTie(s, t, a) && MtxTie(s, u, a);
  }

  /** Nobody has a chunk locked that has not joined, while `t` holds its buffer's mutex. */
  lemma MarkerUnlocked(s: State, t: Task, a: AbdId, i: nat, f: FolioId)
    requires Inv(s) && MtxOf(At(s, t)) == Some(a) && Behind(s, f, a, i) && Fo(s, f).priv.Marker?
    requires !Locks(At(s, t), f, Fo(s, f).home)
    ensures Fo(s, f).lock.None?
  {
    if Fo(s, f).lock.Some? { MarkerNotLockedBy(s, t, a, i, f, Fo(s, f).lock.value); }
  }

  lemma MarkerIgnored(s: State, t: Task, a: AbdId, i: nat, f: FolioId, u: Task)
    requires Inv(s) && MtxOf(At(s, t)) == Some(a) && Behind(s, f, a, i) && Fo(s, f).priv.Marker?
    requires u != t && Fo(s, f).lock.None?
    ensures !Leans(s, At(s, u), f)
  {
    assert HomeOk(s, f) && PcOk(s, u) && LockTie(s, u, f) && MtxTie(s, t, a) && MtxTie(s, u, a);
    var pc := At(s, u);
    if pc.Join? && f in Ab(s, pc.a).sg {
      var j :| 0 <= j < |Ab(s, pc.a).sg| && Ab(s, pc.a).sg[j] == f;
      assert EntryOk(s, pc.a, j);
    }
  }
}
