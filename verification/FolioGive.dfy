/** The steps that give an entry's chunk back: the entry keeps its contents, but nobody owns them. */
module FolioGive {
  import opened Basics
  import opened FolioMachine
  import opened FolioInvariant
  import opened FolioFrames
  import opened FolioLight
  import opened FolioFlags
  import opened FolioCore
  import opened FolioHeavy
  import opened FolioDrop

  /** Task `t`, which frees buffer `a`, gives up folio `p`, the chunk of the next entry. */
  ghost predicate GiveStep(s: State, s': State, t: Task, p: FolioId, a: AbdId) {
    var b := Ab(s, a);
    && b.alive && b.built && b.dying && b.gone < |b.sg| && b.sg[b.gone] == p && Behind(s, p, a, b.gone)
    && MtxOf(At(s, t)) == Some(a) && MtxOf(At(s', t)) == Some(a) && GivesUp(At(s, t), a)
    && NoNewRole(At(s, t), At(s', t)) && OthersStay(s, s', t)
    && Ab(s', a) == b.(gone := b.gone + 1)
    && (forall c: AbdId :: c != a ==> Ab(s', c) == Ab(s, c))
    && (forall f: FolioId :: f != p ==> Untouched(s, s', t, f))
    && OthersHold(t, Fo(s, p), Fo(s', p)) && Fo(s', p).home.None?
  }

  lemma GiveFolio(s: State, s': State, t: Task, p: FolioId, a: AbdId, f: FolioId)
    requires CountOk(s, f) && HomeOk(s, f) && HomelessOk(s, f) && GiveStep(s, s', t, p, a) && f != p
    ensures CountOk(s', f) && HomeOk(s', f) && HomelessOk(s', f)
  {
    assert Untouched(s, s', t, f);
    if Fo(s, f).home.Some? { assert Ab(s', Fo(s, f).home.value.abd).mtx == Ab(s, Fo(s, f).home.value.abd).mtx; }
  }

  lemma GiveEntries(s: State, s': State, t: Task, p: FolioId, a: AbdId)
    requires Inv(s) && GiveStep(s, s', t, p, a)
    ensures EntriesOk(s')
  {
    assert MtxTie(s, t, a);
    forall b: AbdId, i: nat ensures EntryOk(s', b, i) {
      assert EntryOk(s, b, i);
      if i < |Ab(s, b).sg| && Ab(s, b).sg[i] != p { assert Untouched(s, s', t, Ab(s, b).sg[i]); }
    }
    forall b: AbdId, k: nat, i: nat ensures Apart(s', b, k, i) {
      assert Apart(s, b, k, i) && EntryOk(s, b, i);
    }
  }

  lemma GiveTies(s: State, s': State, t: Task, p: FolioId, a: AbdId)
    requires Inv(s) && GiveStep(s, s', t, p, a)
    requires LockTie(s', t, p) && RefTie(s', t, p)
    requires forall f: FolioId :: f != p ==> SameHeld(At(s, t), At(s', t), f, Fo(s, f).home)
    ensures TiesOk(s')
  {
    forall u: Task, f: FolioId ensures LockTie(s', u, f) && RefTie(s', u, f) {
      assert LockTie(s, u, f) && RefTie(s, u, f) && MtxTie(s, u, a) && MtxTie(s, t, a);
      if f != p {
        assert Untouched(s, s', t, f);
        assert SameHeld(At(s, t), At(s', t), f, Fo(s, f).home);
      }
    }
    forall u: Task, c: AbdId ensures MtxTie(s', u, c) { assert MtxTie(s, u, c); }
    OtherTies(s, s', t);
  }

  /** Nobody but its freer uses a buffer that is being freed. */
  lemma GiveFlags(s: State, s': State, t: Task, p: FolioId, a: AbdId, u: Task)
    requires Inv(s) && GiveStep(s, s', t, p, a) && u != t
    ensures FlagsKept(Ab(s, a), Ab(s', a), At(s, u), a)
  {
    assert PcOk(s, u) && MtxTie(s, u, a) && MtxTie(s, t, a) && Alone(s, u, t, a);
  }

  lemma KeptThrough(s: State, s1: State, s': State, a: AbdId, pc: Pc)
    requires Kept(s, s1, pc) && s'.folios == s1.folios && s'.pcs == s1.pcs && s1.abds == s.abds
    requires Ab(s', a) == Ab(s, a).(gone := Ab(s', a).gone)
    requires forall c: AbdId :: c != a ==> Ab(s', c) == Ab(s, c)
    requires FlagsKept(Ab(s, a), Ab(s', a), pc, a)
    ensures Kept(s, s', pc)
  {
    if pc.Join? || pc.Drop? || pc.Move? {
      ThroughHolder(s, s1, s', a, pc);
    } else {
      forall f: FolioId ensures Fo(s', f) == Fo(s1, f) && Holder(s', f) == Holder(s1, f) { }
    }
  }

  lemma ThroughHolder(s: State, s1: State, s': State, a: AbdId, pc: Pc)
    requires Kept(s, s1, pc) && s'.folios == s1.folios && s'.pcs == s1.pcs && s1.abds == s.abds
    requires Ab(s', a) == Ab(s, a).(gone := Ab(s', a).gone)
    requires forall c: AbdId :: c != a ==> Ab(s', c) == Ab(s, c)
    requires FlagsKept(Ab(s, a), Ab(s', a), pc, a) && (pc.Join? || pc.Drop? || pc.Move?)
    ensures Kept(s, s', pc)
  {
    forall f: FolioId ensures Fo(s', f) == Fo(s1, f) && Holder(s', f) == Holder(s1, f) { }
    forall c: AbdId ensures Ab(s', c).sg == Ab(s, c).sg { }
  }

  lemma GiveKept(s: State, s': State, t: Task, p: FolioId, a: AbdId, u: Task)
    requires Inv(s) && GiveStep(s, s', t, p, a) && u != t
    requires Ignores(s, s', At(s, u), p) && !Targets(Holder(s', p), p)
    ensures Kept(s, s', At(s, u))
  {
    var s1 := s'.(abds := s.abds);
    assert CoreStep(s, s1, t, p, p) by {
      forall f: FolioId | f != p ensures Untouched(s, s1, t, f) { assert Untouched(s, s', t, f); }
    }
    CoreKept(s, s1, t, p, p, u);
    GiveFlags(s, s', t, p, a, u);
    KeptThrough(s, s1, s', a, At(s, u));
  }

  lemma GiveKeeps(s: State, s': State, t: Task, p: FolioId, a: AbdId)
    requires Inv(s) && GiveStep(s, s', t, p, a)
    requires LockTie(s', t, p) && RefTie(s', t, p)
    requires forall f: FolioId :: f != p ==> SameHeld(At(s, t), At(s', t), f, Fo(s, f).home)
    requires CountOk(s', p) && HomelessOk(s', p) && !Targets(Holder(s', p), p)
    requires forall u: Task :: u != t ==> Ignores(s, s', At(s, u), p)
    requires PcOk(s', t)
    ensures Inv(s')
  {
    forall f: FolioId ensures CountOk(s', f) && HomeOk(s', f) && HomelessOk(s', f) {
      assert CountOk(s, f) && HomeOk(s, f) && HomelessOk(s, f);
      if f != p { GiveFolio(s, s', t, p, a, f); }
    }
    GiveEntries(s, s', t, p, a);
    GiveTies(s, s', t, p, a);
    forall u: Task ensures PcOk(s', u) {
      assert PcOk(s, u);
      if u != t {
        assert Ignores(s, s', At(s, u), p);
        GiveKept(s, s', t, p, a, u);
        PcFrame(s, s', u);
      }
    }
  }

  lemma DetachStep(s: State, t: Task)
    requires Inv(s) && At(s, t).Drop? && At(s, t).d.Removed?
    ensures var pc := At(s, t);
            var s' := DoDrop(s, t, pc);
            && GiveStep(s, s', t, pc.p, pc.a)
            && forall f: FolioId :: f != pc.p ==> SameHeld(pc, At(s', t), f, Fo(s, f).home)
  {
    var pc := At(s, t);
    var s' := DoDrop(s, t, pc);
    assert PcOk(s, t) && MtxTie(s, t, pc.a) && EntryOk(s, pc.a, pc.i) && LockTie(s, t, pc.p);
    assert HomeOk(s, pc.p);
    forall f: FolioId | f != pc.p ensures Untouched(s, s', t, f) && SameHeld(pc, At(s', t), f, Fo(s, f).home) { }
  }

  lemma DetachIgnored(s: State, t: Task, u: Task)
    requires Inv(s) && At(s, t).Drop? && At(s, t).d.Removed? && u != t
    ensures Ignores(s, DoDrop(s, t, At(s, t)), At(s, u), At(s, t).p)
  {
    var pc := At(s, t);
    assert PcOk(s, t) && PcOk(s, u) && MtxTie(s, t, pc.a) && MtxTie(s, u, pc.a);
    assert LockTie(s, t, pc.p) && HomeOk(s, pc.p);
    LockedIgnored(s, t, pc.p, u);
  }

  lemma KeepDropDetach(s: State, t: Task)
    requires Inv(s) && At(s, t).Drop? && At(s, t).d.Removed?
    ensures Inv(DoDrop(s, t, At(s, t)))
  {
    var pc := At(s, t);
    var p := pc.p;
    var s' := DoDrop(s, t, pc);
    assert PcOk(s, t) && CountOk(s, p) && LockTie(s, t, p) && RefTie(s, t, p) && HomeOk(s, p);
    DetachStep(s, t);
    forall u: Task | u != t ensures Ignores(s, s', At(s, u), p) { DetachIgnored(s, t, u); }
    GiveKeeps(s, s', t, p, pc.a);
  }

  /** Nobody has a chunk locked that never joined, nor leans on it, once its marker is gone. */
  lemma UnmarkedIgnored(s: State, t: Task, u: Task)
    requires Inv(s) && At(s, t).Drop? && At(s, t).d.Unmarked?
    ensures Fo(s, At(s, t).p).lock != Some(u)
    ensures u != t ==> !Leans(s, At(s, u), At(s, t).p)
  {
    var a := At(s, t).a;
    var p := At(s, t).p;
    assert PcOk(s, t) && HomeOk(s, p) && PcOk(s, u);
    assert LockTie(s, u, p) && MtxTie(s, t, a) && MtxTie(s, u, a);
  }

  lemma UnmarkedStep(s: State, t: Task)
    requires Inv(s) && At(s, t).Drop? && At(s, t).d.Unmarked?
    ensures var pc := At(s, t);
            var s' := DoDrop(s, t, pc);
            && GiveStep(s, s', t, pc.p, pc.a)
            && forall f: FolioId :: f != pc.p ==> SameHeld(pc, At(s', t), f, Fo(s, f).home)
  {
    var pc := At(s, t);
    var s' := DoDrop(s, t, pc);
    assert PcOk(s, t) && MtxTie(s, t, pc.a) && EntryOk(s, pc.a, pc.i) && LockTie(s, t, pc.p);
    assert HomeOk(s, pc.p);
    forall f: FolioId | f != pc.p ensures Untouched(s, s', t, f) && SameHeld(pc, At(s', t), f, Fo(s, f).home) { }
  }

  lemma KeepDropPut(s: State, t: Task)
    requires Inv(s) && At(s, t).Drop? && At(s, t).d.Unmarked?
    ensures Inv(DoDrop(s, t, At(s, t)))
  {
    var pc := At(s, t);
    var p := pc.p;
    var s' := DoDrop(s, t, pc);
    assert PcOk(s, t) && CountOk(s, p) && LockTie(s, t, p) && RefTie(s, t, p) && HomeOk(s, p);
    UnmarkedStep(s, t);
    if Fo(s, p).lock.Some? { UnmarkedIgnored(s, t, Fo(s, p).lock.value); }
    forall u: Task | u != t ensures Ignores(s, s', At(s, u), p) { UnmarkedIgnored(s, t, u); }
    GiveKeeps(s, s', t, p, pc.a);
  }

  lemma EvictStep(s: State, t: Task)
    requires Inv(s) && ClaimIs(At(s, t), Evicting) && At(s, t).i < |Ab(s, At(s, t).a).sg|
    requires At(s, t).rf == Some(Ab(s, At(s, t).a).sg[At(s, t).i])
    ensures var pc := At(s, t);
            var p := pc.rf.value;
            var s' := DoEvictNext(s, t, pc);
            && GiveStep(s, s', t, p, pc.a)
            && forall f: FolioId :: f != p ==> SameHeld(pc, At(s', t), f, Fo(s, f).home)
  {
    var pc := At(s, t);
    var p := pc.rf.value;
    var s' := DoEvictNext(s, t, pc);
    assert PcOk(s, t) && MtxTie(s, t, pc.a) && EntryOk(s, pc.a, pc.i) && HomeOk(s, p);
    forall f: FolioId | f != p ensures Untouched(s, s', t, f) && SameHeld(pc, At(s', t), f, Fo(s, f).home) {
      assert HomeOk(s, f);
    }
  }

  lemma EvictIgnored(s: State, t: Task, u: Task)
    requires Inv(s) && ClaimIs(At(s, t), Evicting) && At(s, t).i < |Ab(s, At(s, t).a).sg| && u != t
    requires At(s, t).rf == Some(Ab(s, At(s, t).a).sg[At(s, t).i])
    ensures Ignores(s, DoEvictNext(s, t, At(s, t)), At(s, u), At(s, t).rf.value)
  {
    var pc := At(s, t);
    var p := pc.rf.value;
    assert PcOk(s, t) && PcOk(s, u) && EntryOk(s, pc.a, pc.i) && MtxTie(s, t, pc.a) && MtxTie(s, u, pc.a);
    assert LockTie(s, t, p) && HomeOk(s, p);
    LockedIgnored(s, t, p, u);
  }

  /** The folio reclaim was called on is only detached: the kernel frees it. */
  lemma KeepEvictSelf(s: State, t: Task)
    requires Inv(s) && ClaimIs(At(s, t), Evicting) && At(s, t).i < |Ab(s, At(s, t).a).sg|
    requires At(s, t).rf == Some(Ab(s, At(s, t).a).sg[At(s, t).i])
    ensures Inv(DoEvictNext(s, t, At(s, t)))
  {
    var pc := At(s, t);
    var p := Ab(s, pc.a).sg[pc.i];
    var s' := DoEvictNext(s, t, pc);
    assert PcOk(s, t) && EntryOk(s, pc.a, pc.i);
    assert CountOk(s, p) && HomeOk(s, p) && LockTie(s, t, p) && RefTie(s, t, p);
    EvictStep(s, t);
    forall u: Task | u != t ensures Ignores(s, s', At(s, u), p) { EvictIgnored(s, t, u); }
    GiveKeeps(s, s', t, p, pc.a);
  }
}
