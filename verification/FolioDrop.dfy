/** Freeing and reclaiming: the steps that take a chunk out of the mapping and away from its entry. */
module FolioDrop {
  import opened Basics
  import opened FolioMachine
  import opened FolioInvariant
  import opened FolioFrames
  import opened FolioLight
  import opened FolioFlags
  import opened FolioCore
  import opened FolioHeavy

  // ----- the chunk stays behind its entry -----

  /** A mapped chunk in the freer's hands has joined, and its joiner is done with it. */
  lemma MineJoined(s: State, t: Task)
    requires Inv(s) && At(s, t).Drop? && At(s, t).d.Mine? && Fo(s, At(s, t).p).mapped
    ensures Fo(s, At(s, t).p).priv == Names(At(s, t).a) && !Fo(s, At(s, t).p).alloc && Fo(s, At(s, t).p).lock == Some(t)
    ensures !Fo(s, At(s, t).p).frozen && Ab(s, At(s, t).a).mtx == Some(t) && Fo(s, At(s, t).p).grabs[t] >= 1
  {
    var p := At(s, t).p;
    assert PcOk(s, t) && CountOk(s, p) && HomeOk(s, p) && LockTie(s, t, p) && RefTie(s, t, p);
    assert MtxTie(s, t, At(s, t).a);
  }

  lemma UnmapKept(s: State, t: Task, u: Task)
    requires Inv(s) && At(s, t).Drop? && At(s, t).d.Mine? && Fo(s, At(s, t).p).mapped && u != t
    ensures Kept(s, Go(SetF(s, At(s, t).p, Unmap(Fo(s, At(s, t).p))), t, At(s, t).(d := Removed)), At(s, u))
  {
    MineJoined(s, t);
    UnmapIgnored(s, t, u);
    OneKept(s, t, At(s, t).p, Unmap(Fo(s, At(s, t).p)), At(s, t).(d := Removed), u);
  }

  lemma KeepDropUnmap(s: State, t: Task)
    requires Inv(s) && At(s, t).Drop? && At(s, t).d.Mine? && Fo(s, At(s, t).p).mapped
    ensures Inv(DoDrop(s, t, At(s, t)))
  {
    var pc := At(s, t);
    var p := pc.p;
    var y := Unmap(Fo(s, p));
    var pc1 := pc.(d := Removed);
    var s' := Go(SetF(s, p, y), t, pc1);
    MineJoined(s, t);
    assert PcOk(s, t) && CountOk(s, p) && HomeOk(s, p) && LockTie(s, t, p) && RefTie(s, t, p);
    forall u: Task | u != t ensures Kept(s, s', At(s, u)) { UnmapKept(s, t, u); }
    UnmapPc(s, t);
    OneCore(s, t, p, y, pc1);
  }

  lemma UnmapPc(s: State, t: Task)
    requires Inv(s) && At(s, t).Drop? && At(s, t).d.Mine? && Fo(s, At(s, t).p).mapped
    ensures PcOk(Go(SetF(s, At(s, t).p, Unmap(Fo(s, At(s, t).p))), t, At(s, t).(d := Removed)), t)
  {
    MineJoined(s, t);
    assert PcOk(s, t);
  }

  lemma UnmapIgnored(s: State, t: Task, u: Task)
    requires Inv(s) && At(s, t).Drop? && At(s, t).d.Mine? && Fo(s, At(s, t).p).mapped && u != t
    ensures !Leans(s, At(s, u), At(s, t).p)
  {
    MineJoined(s, t);
    assert PcOk(s, t) && MtxTie(s, u, At(s, t).a) && PcOk(s, u);
    LockedIgnored(s, t, At(s, t).p, u);
  }

  lemma KeepDropUnmark(s: State, t: Task)
    requires Inv(s) && At(s, t).Drop? && At(s, t).d.Unlocked?
    ensures Inv(DoDrop(s, t, At(s, t)))
  {
    var pc := At(s, t);
    var p := pc.p;
    var y := Detach(Fo(s, p));
    var pc1 := pc.(d := Unmarked);
    var s' := Go(SetF(s, p, y), t, pc1);
    assert PcOk(s, t) && CountOk(s, p) && HomeOk(s, p) && LockTie(s, t, p) && RefTie(s, t, p) && MtxTie(s, t, pc.a);
    MarkerUnlocked(s, t, pc.a, pc.i, p);
    forall u: Task | u != t ensures Kept(s, s', At(s, u)) {
      MarkerIgnored(s, t, pc.a, pc.i, p, u);
      OneKept(s, t, p, y, pc1, u);
    }
    assert EntryOk(s, pc.a, pc.i);
    OneCore(s, t, p, y, pc1);
  }

  /** The kernel takes a folio reclaim gave back out of the mapping. */
  lemma KeepRcRemove(s: State, t: Task)
    requires Inv(s) && ReclaimIs(At(s, t), Released)
    ensures Inv(DoRcRemove(s, t, At(s, t)))
  {
    var pc := At(s, t);
    var p := pc.p;
    var x := Fo(s, p);
    var pc1 := pc.(c := Back);
    assert PcOk(s, t) && CountOk(s, p) && LockTie(s, t, p) && RefTie(s, t, p);
    if x.count == x.nr + 1 {
      var s' := Go(SetF(s, p, Unmap(x)), t, pc1);
      forall u: Task | u != t ensures Kept(s, s', At(s, u)) {
        LockedIgnored(s, t, p, u);
        assert PcOk(s, u);
        OneKept(s, t, p, Unmap(x), pc1, u);
      }
      OneCore(s, t, p, Unmap(x), pc1);
    } else {
      NoFolio(s, t, pc1);
    }
  }

  lemma KeepEvictOther(s: State, t: Task)
    requires Inv(s) && ClaimIs(At(s, t), Evicting) && At(s, t).i < |Ab(s, At(s, t).a).sg|
    requires At(s, t).rf != Some(Ab(s, At(s, t).a).sg[At(s, t).i])
    ensures Inv(DoEvictNext(s, t, At(s, t)))
  {
    var pc := At(s, t);
    var p := Ab(s, pc.a).sg[pc.i];
    var pc1 := Drop(Claimer(pc.rf), pc.a, pc.i, p, Mine);
    assert PcOk(s, t) && EntryOk(s, pc.a, pc.i);
    forall f: FolioId ensures SameHeld(pc, pc1, f, Fo(s, f).home) { assert HomeOk(s, f); }
    NoFolio(s, t, pc1);
  }
}
