/** Migration: freezing, switching, copying and handing over the private word keep the invariant. */
module FolioMove {
  import opened Basics
  import opened FolioMachine
  import opened FolioInvariant
  import opened FolioFrames
  import opened FolioLight
  import opened FolioCore
  import opened FolioHeavy

  /** Between taking its target and repointing the entry. */
  predicate Moving(pc: Pc) { pc.Move? && !pc.m.Isolated? && !pc.m.Done? }

  /** Folio `y` is `x` with another private word, mapping, count or bytes. */
  predicate SameHands(x: Folio, y: Folio) { y.home == x.home && y.lock == x.lock && y.grabs == x.grabs && y.nr == x.nr }

  /** One step of a migration before the entry is repointed: both its folios stay in its hands. */
  ghost predicate MoveStep(s: State, s': State, t: Task) {
    var pc := At(s, t);
    var pc1 := At(s', t);
    && Moving(pc) && Moving(pc1) && pc1 == pc.(m := pc1.m)
    && s'.abds == s.abds && OthersStay(s, s', t)
    && (forall f: FolioId :: f != pc.src && f != pc.dst ==> Fo(s', f) == Fo(s, f))
    && SameHands(Fo(s, pc.src), Fo(s', pc.src)) && SameHands(Fo(s, pc.dst), Fo(s', pc.dst))
    && Fo(s', pc.src).bytes == Fo(s, pc.src).bytes
    && (Fo(s', pc.dst).bytes == Fo(s, pc.dst).bytes || pc.m.Unfrozen?)
    && (FillsInto(pc1, pc.dst) ==> FillsInto(pc, pc.dst))
  }

  /** The source is locked, and the count the migration waited for leaves nobody who leans on it. */
  lemma SourceIgnored(s: State, t: Task, u: Task)
    requires Inv(s) && Moving(At(s, t)) && u != t && !Fo(s, At(s, t).src).alloc
    ensures !Leans(s, At(s, u), At(s, t).src)
  {
    var src := At(s, t).src;
    assert PcOk(s, t) && PcOk(s, u) && LockTie(s, u, src) && LockTie(s, t, src);
  }

  lemma TargetIgnored(s: State, t: Task, u: Task)
    requires Inv(s) && Moving(At(s, t)) && u != t
    ensures !Leans(s, At(s, u), At(s, t).dst)
    ensures At(s, t).m.Unfrozen? ==> !(At(s, u).Reading? && At(s, u).p == At(s, t).dst)
  {
    var dst := At(s, t).dst;
    assert PcOk(s, t) && PcOk(s, u) && LockTie(s, t, dst);
    LockedIgnored(s, t, dst, u);
  }

  lemma MoveKept(s: State, s': State, t: Task, u: Task)
    requires Inv(s) && MoveStep(s, s', t) && u != t && !Fo(s, At(s, t).src).alloc
    ensures Kept(s, s', At(s, u))
  {
    var pc := At(s, t);
    SourceIgnored(s, t, u);
    TargetIgnored(s, t, u);
    assert PcOk(s, t) && LockTie(s, t, pc.src) && LockTie(s, t, pc.dst);
    assert CoreStep(s, s', t, pc.src, pc.dst) by {
      forall f: FolioId | f != pc.src && f != pc.dst ensures Untouched(s, s', t, f) { }
    }
    CoreKept(s, s', t, pc.src, pc.dst, u);
  }

  lemma MoveTies(s: State, s': State, t: Task)
    requires Inv(s) && MoveStep(s, s', t)
    ensures var pc := At(s, t);
            && LockTie(s', t, pc.src) && RefTie(s', t, pc.src) && LockTie(s', t, pc.dst) && RefTie(s', t, pc.dst)
            && CoreStep(s, s', t, pc.src, pc.dst)
            && forall f: FolioId :: f != pc.src && f != pc.dst ==> SameHeld(pc, At(s', t), f, Fo(s, f).home)
  {
    var pc := At(s, t);
    assert LockTie(s, t, pc.src) && RefTie(s, t, pc.src) && LockTie(s, t, pc.dst) && RefTie(s, t, pc.dst);
    forall f: FolioId | f != pc.src && f != pc.dst ensures Untouched(s, s', t, f) { }
  }

  lemma MoveKeeps(s: State, s': State, t: Task)
    requires Inv(s) && MoveStep(s, s', t) && !Fo(s, At(s, t).src).alloc
    requires CountOk(s', At(s, t).src) && HomeOk(s', At(s, t).src) && CountOk(s', At(s, t).dst)
    requires HomelessOk(s', At(s, t).dst)
    requires PcOk(s', t)
    ensures Inv(s')
  {
    var pc := At(s, t);
    assert PcOk(s, t) && HomeOk(s, pc.src);
    forall u: Task | u != t ensures Kept(s, s', At(s, u)) { MoveKept(s, s', t, u); }
    MoveTies(s, s', t);
    MovePlaces(s, s', t);
    CoreKeeps(s, s', t, pc.src, pc.dst);
  }

  lemma MovePlaces(s: State, s': State, t: Task)
    requires Inv(s) && MoveStep(s, s', t)
    ensures PlaceKept(s, s', At(s, t).src) && PlaceKept(s, s', At(s, t).dst)
  {
    assert PcOk(s, t) && HomeOk(s, At(s, t).src);
  }

  /** On the exact count, the only reference left beside the protocol's is the migrator's. */
  lemma FreezeAlone(s: State, t: Task)
    requires Inv(s) && MoveIs(At(s, t), Ready)
    requires Fo(s, At(s, t).src).count == Fo(s, At(s, t).src).nr + 2
    ensures !Fo(s, At(s, t).src).alloc && !Fo(s, At(s, t).src).frozen && |Fo(s, At(s, t).src).grabs| == 1
  {
    var src := At(s, t).src;
    assert PcOk(s, t) && CountOk(s, src) && RefTie(s, t, src);
    OneHolder(Fo(s, src).grabs, t);
  }

  lemma KeepMgFreeze(s: State, t: Task)
    requires Inv(s) && MoveIs(At(s, t), Ready)
    requires Fo(s, At(s, t).src).count == Fo(s, At(s, t).src).nr + 2
    ensures Inv(DoMgFreeze(s, t, At(s, t)))
  {
    var pc := At(s, t);
    var s' := DoMgFreeze(s, t, pc);
    FreezeAlone(s, t);
    assert PcOk(s, t) && LockTie(s, t, pc.src) && CountOk(s, pc.src) && HomeOk(s, pc.src);
    assert CountOk(s, pc.dst) && HomelessOk(s, pc.dst) && LockTie(s, t, pc.dst);
    MoveKeeps(s, s', t);
  }

  lemma KeepMgSwitch(s: State, t: Task)
    requires Inv(s) && MoveIs(At(s, t), Frozen)
    ensures Inv(DoMgSwitch(s, t, At(s, t)))
  {
    var pc := At(s, t);
    var s' := DoMgSwitch(s, t, pc);
    assert PcOk(s, t) && LockTie(s, t, pc.src) && CountOk(s, pc.src) && HomeOk(s, pc.src);
    assert CountOk(s, pc.dst) && HomelessOk(s, pc.dst) && LockTie(s, t, pc.dst);
    MoveKeeps(s, s', t);
  }

  lemma KeepMgUnfreeze(s: State, t: Task)
    requires Inv(s) && MoveIs(At(s, t), Switched)
    ensures Inv(DoMgUnfreeze(s, t, At(s, t)))
  {
    var pc := At(s, t);
    var s' := DoMgUnfreeze(s, t, pc);
    assert PcOk(s, t) && LockTie(s, t, pc.src) && CountOk(s, pc.src) && HomeOk(s, pc.src);
    assert CountOk(s, pc.dst) && HomelessOk(s, pc.dst) && LockTie(s, t, pc.dst);
    MoveKeeps(s, s', t);
  }

  lemma KeepMgCopy(s: State, t: Task)
    requires Inv(s) && MoveIs(At(s, t), Unfrozen)
    ensures Inv(DoMgCopy(s, t, At(s, t)))
  {
    var pc := At(s, t);
    var s' := DoMgCopy(s, t, pc);
    assert PcOk(s, t) && LockTie(s, t, pc.src) && CountOk(s, pc.src) && HomeOk(s, pc.src);
    assert CountOk(s, pc.dst) && HomelessOk(s, pc.dst) && LockTie(s, t, pc.dst);
    MoveKeeps(s, s', t);
  }

  lemma KeepMgPrivate(s: State, t: Task)
    requires Inv(s) && MoveIs(At(s, t), Copied)
    ensures Inv(DoMgPrivate(s, t, At(s, t)))
  {
    var pc := At(s, t);
    var s' := DoMgPrivate(s, t, pc);
    assert PcOk(s, t) && LockTie(s, t, pc.src) && CountOk(s, pc.src) && HomeOk(s, pc.src);
    assert CountOk(s, pc.dst) && HomelessOk(s, pc.dst) && LockTie(s, t, pc.dst);
    MoveKeeps(s, s', t);
  }
}
