/** The steps that only move references and folio locks keep the invariant. */
module FolioLight {
  import opened Basics
  import opened FolioMachine
  import opened FolioInvariant
  import opened FolioFrames

  lemma TwoHolders(m: multiset<Task>, t: Task, u: Task)
    requires t != u && m[t] >= 1 && m[u] >= 1
    ensures |m| >= 2
  {
    assert m == (m - multiset{t, u}) + multiset{t, u};
  }

  lemma OneHolder(m: multiset<Task>, t: Task)
    requires m[t] >= 1
    ensures |m| >= 1 && |m - multiset{t}| == |m| - 1
  {
    assert m == (m - multiset{t}) + multiset{t};
  }

  /** A folio on which a task other than the migrator holds a reference is never frozen. */
  lemma HeldNotFrozen(s: State, t: Task, f: FolioId)
    requires Inv(s) && Fo(s, f).grabs[t] >= 1 && Plain(At(s, t))
    ensures !Fo(s, f).frozen && Fo(s, f).count >= 1
  {
    assert CountOk(s, f);
    OneHolder(Fo(s, f).grabs, t);
    if Fo(s, f).frozen {
      var u := Fo(s, f).lock.value;
      assert PcOk(s, u) && RefTie(s, u, f);
      TwoHolders(Fo(s, f).grabs, t, u);
    }
  }

  lemma PutRelocks(s: State, t: Task, f: FolioId)
    requires Inv(s) && Fo(s, f).grabs[t] >= 1 && Plain(At(s, t))
    ensures Relocked(t, Fo(s, f), Put(Fo(s, f), t))
    ensures Fo(s, f).lock == Some(t) ==> Relocked(t, Fo(s, f), Put(Unlock(Fo(s, f)), t))
  {
    HeldNotFrozen(s, t, f);
    OneHolder(Fo(s, f).grabs, t);
  }

  lemma GetRelocks(s: State, t: Task, f: FolioId)
    requires CountOk(s, f) && CanGet(Fo(s, f))
    ensures Relocked(t, Fo(s, f), Get(Fo(s, f), t))
  {
  }

  /** What `t` holds on `f` after it moved to `pc1` with folio `f` as `z`. */
  ghost predicate TieNow(t: Task, pc1: Pc, f: FolioId, z: Folio) {
    (z.lock == Some(t) <==> Locks(pc1, f, z.home)) && z.grabs[t] == Refs(pc1, f, z.home)
  }

  /** A light step on one folio; `after` says what `t` holds then, folio by folio. */
  lemma OneFolio(s: State, t: Task, p: FolioId, y: Folio, pc1: Pc)
    requires Inv(s) && Plain(At(s, t)) && Plain(pc1) && NoNewRole(At(s, t), pc1)
    requires MtxOf(pc1) == MtxOf(At(s, t))
    requires Relocked(t, Fo(s, p), y)
    requires TieNow(t, pc1, p, y)
    requires forall f: FolioId :: f != p ==> SameHeld(At(s, t), pc1, f, Fo(s, f).home)
    requires PcOk(Go(SetF(s, p, y), t, pc1), t)
    ensures Inv(Go(SetF(s, p, y), t, pc1))
  {
    var s' := Go(SetF(s, p, y), t, pc1);
    forall f: FolioId ensures RelockedAt(s, s', t, f) { }
    forall f: FolioId ensures LockTie(s', t, f) && RefTie(s', t, f) {
      assert LockTie(s, t, f) && RefTie(s, t, f);
      assert f != p ==> SameHeld(At(s, t), pc1, f, Fo(s, f).home);
    }
    LightKeeps(s, s', t);
  }

  ghost predicate SameHeld(pc: Pc, pc1: Pc, f: FolioId, home: Option<Entry>) {
    (Locks(pc, f, home) <==> Locks(pc1, f, home)) && Refs(pc, f, home) == Refs(pc1, f, home)
  }

  /** A step of `t` that touches no folio and no buffer. */
  lemma NoFolio(s: State, t: Task, pc1: Pc)
    requires Inv(s) && Plain(At(s, t)) && Plain(pc1) && NoNewRole(At(s, t), pc1)
    requires MtxOf(pc1) == MtxOf(At(s, t))
    requires forall f: FolioId :: SameHeld(At(s, t), pc1, f, Fo(s, f).home)
    requires PcOk(Go(s, t, pc1), t)
    ensures Inv(Go(s, t, pc1))
  {
    var s' := Go(s, t, pc1);
    forall f: FolioId ensures RelockedAt(s, s', t, f) { }
    forall f: FolioId ensures LockTie(s', t, f) && RefTie(s', t, f) {
      assert LockTie(s, t, f) && RefTie(s, t, f) && SameHeld(At(s, t), pc1, f, Fo(s, f).home);
    }
    LightKeeps(s, s', t);
  }

  lemma KeepLook(s: State, t: Task, a: AbdId, i: nat)
    requires Inv(s) && Can(s, t, Look(a, i), true)
    ensures Inv(Do(s, t, Look(a, i)))
  {
    NoFolio(s, t, Grab(Reader, a, i, 0, Reads));
  }

  lemma KeepGrabRead(s: State, t: Task)
    requires Inv(s) && GrabIs(At(s, t), Reads) && At(s, t).i < |Ab(s, At(s, t).a).sg|
    ensures Inv(DoGrabRead(s, t, At(s, t)))
  {
    var pc := At(s, t);
    assert PcOk(s, t);
    NoFolio(s, t, pc.(p := Ab(s, pc.a).sg[pc.i], g := Tries));
  }

  lemma KeepGrabHit(s: State, t: Task)
    requires Inv(s) && GrabIs(At(s, t), Tries) && CanGet(Fo(s, At(s, t).p))
    ensures Inv(Go(SetF(s, At(s, t).p, Get(Fo(s, At(s, t).p), t)), t, At(s, t).(g := Checks)))
  {
    var pc := At(s, t);
    assert PcOk(s, t) && CountOk(s, pc.p) && LockTie(s, t, pc.p) && RefTie(s, t, pc.p);
    GetRelocks(s, t, pc.p);
    OneFolio(s, t, pc.p, Get(Fo(s, pc.p), t), pc.(g := Checks));
  }

  lemma KeepGrabGet(s: State, t: Task)
    requires Inv(s) && GrabIs(At(s, t), Tries)
    ensures Inv(DoGrabGet(s, t, At(s, t)))
  {
    if CanGet(Fo(s, At(s, t).p)) {
      KeepGrabHit(s, t);
    } else {
      assert PcOk(s, t);
      NoFolio(s, t, At(s, t).(g := Reads));
    }
  }

  /** The entry still names the folio, so the folio's bytes are the buffer's. */
  lemma GrabbedOk(s: State, t: Task)
    requires Inv(s) && GrabIs(At(s, t), Checks) && PcOk(s, t)
    requires At(s, t).i < |Ab(s, At(s, t).a).data| && At(s, t).i < |Ab(s, At(s, t).a).sg|
    requires Ab(s, At(s, t).a).sg[At(s, t).i] == At(s, t).p
    ensures PcOk(Go(s, t, Grabbed(At(s, t), Ab(s, At(s, t).a).data[At(s, t).i])), t)
  {
    var pc := At(s, t);
    var x := Fo(s, pc.p);
    assert EntryOk(s, pc.a, pc.i);
    if x.lock.Some? { assert PcOk(s, x.lock.value); }
  }

  lemma KeepGrabMiss(s: State, t: Task)
    requires Inv(s) && GrabIs(At(s, t), Checks)
    ensures Inv(Go(SetF(s, At(s, t).p, Put(Fo(s, At(s, t).p), t)), t, At(s, t).(g := Reads)))
  {
    var pc := At(s, t);
    assert PcOk(s, t) && LockTie(s, t, pc.p) && RefTie(s, t, pc.p);
    PutRelocks(s, t, pc.p);
    OneFolio(s, t, pc.p, Put(Fo(s, pc.p), t), pc.(g := Reads));
  }

  lemma KeepGrabTest(s: State, t: Task)
    requires Inv(s) && GrabIs(At(s, t), Checks)
    requires At(s, t).i < |Ab(s, At(s, t).a).sg| && At(s, t).i < |Ab(s, At(s, t).a).data|
    ensures Inv(DoGrabTest(s, t, At(s, t)))
  {
    var pc := At(s, t);
    assert PcOk(s, t);
    if Ab(s, pc.a).sg[pc.i] == pc.p {
      GrabbedOk(s, t);
      NoFolio(s, t, Grabbed(pc, Ab(s, pc.a).data[pc.i]));
    } else {
      KeepGrabMiss(s, t);
    }
  }

  lemma LockRelocks(s: State, t: Task, f: FolioId)
    requires CountOk(s, f) && Fo(s, f).lock.None?
    ensures Relocked(t, Fo(s, f), LockBy(Fo(s, f), t))
  {
  }

  lemma UnlockRelocks(s: State, t: Task, f: FolioId)
    requires CountOk(s, f) && Fo(s, f).lock == Some(t) && Plain(At(s, t))
    ensures Relocked(t, Fo(s, f), Unlock(Fo(s, f)))
  {
  }

  lemma KeepReadDone(s: State, t: Task)
    requires Inv(s) && At(s, t).Reading?
    ensures Inv(Go(SetF(s, At(s, t).p, Put(Fo(s, At(s, t).p), t)), t, Idle))
  {
    var p := At(s, t).p;
    assert LockTie(s, t, p) && RefTie(s, t, p);
    PutRelocks(s, t, p);
    OneFolio(s, t, p, Put(Fo(s, p), t), Idle);
  }

  lemma KeepSpecGet(s: State, t: Task, f: FolioId)
    requires Inv(s) && At(s, t).Idle? && CanGet(Fo(s, f))
    ensures Inv(Go(SetF(s, f, Get(Fo(s, f), t)), t, Spec(f, false)))
  {
    assert LockTie(s, t, f) && RefTie(s, t, f) && CountOk(s, f);
    GetRelocks(s, t, f);
    OneFolio(s, t, f, Get(Fo(s, f), t), Spec(f, false));
  }

  lemma KeepSpecPut(s: State, t: Task)
    requires Inv(s) && At(s, t).Spec? && !At(s, t).locked
    ensures Inv(Go(SetF(s, At(s, t).p, Put(Fo(s, At(s, t).p), t)), t, Idle))
  {
    var p := At(s, t).p;
    assert LockTie(s, t, p) && RefTie(s, t, p);
    PutRelocks(s, t, p);
    OneFolio(s, t, p, Put(Fo(s, p), t), Idle);
  }

  lemma KeepSpecLock(s: State, t: Task)
    requires Inv(s) && At(s, t).Spec? && !At(s, t).locked
    requires Fo(s, At(s, t).p).mapped && Fo(s, At(s, t).p).lock.None?
    ensures Inv(Go(SetF(s, At(s, t).p, LockBy(Fo(s, At(s, t).p), t)), t, Spec(At(s, t).p, true)))
  {
    var p := At(s, t).p;
    assert LockTie(s, t, p) && RefTie(s, t, p) && CountOk(s, p);
    LockRelocks(s, t, p);
    OneFolio(s, t, p, LockBy(Fo(s, p), t), Spec(p, true));
  }

  lemma KeepSpecUnlock(s: State, t: Task)
    requires Inv(s) && At(s, t).Spec? && At(s, t).locked
    ensures Inv(Go(SetF(s, At(s, t).p, Unlock(Fo(s, At(s, t).p))), t, Spec(At(s, t).p, false)))
  {
    var p := At(s, t).p;
    assert LockTie(s, t, p) && RefTie(s, t, p) && CountOk(s, p);
    UnlockRelocks(s, t, p);
    OneFolio(s, t, p, Unlock(Fo(s, p)), Spec(p, false));
  }

  lemma KeepFreeNext(s: State, t: Task)
    requires Inv(s) && FreeIs(At(s, t), NextFree) && At(s, t).i < |Ab(s, At(s, t).a).sg|
    ensures Inv(Go(s, t, Grab(Freer, At(s, t).a, At(s, t).i, 0, Reads)))
  {
    assert PcOk(s, t);
    NoFolio(s, t, Grab(Freer, At(s, t).a, At(s, t).i, 0, Reads));
  }

  lemma KeepFreeLock(s: State, t: Task)
    requires Inv(s) && FreeIs(At(s, t), Locking) && Fo(s, At(s, t).p).lock.None?
    ensures Inv(Go(SetF(s, At(s, t).p, LockBy(Fo(s, At(s, t).p), t)), t, At(s, t).(r := Locked)))
  {
    var pc := At(s, t);
    assert PcOk(s, t) && LockTie(s, t, pc.p) && RefTie(s, t, pc.p) && CountOk(s, pc.p);
    LockRelocks(s, t, pc.p);
    OneFolio(s, t, pc.p, LockBy(Fo(s, pc.p), t), pc.(r := Locked));
  }

  lemma KeepFreeMiss(s: State, t: Task)
    requires Inv(s) && FreeIs(At(s, t), Locked)
    ensures Inv(Go(SetF(s, At(s, t).p, Put(Unlock(Fo(s, At(s, t).p)), t)), t,
            Grab(Freer, At(s, t).a, At(s, t).i, 0, Reads)))
  {
    var pc := At(s, t);
    assert PcOk(s, t) && LockTie(s, t, pc.p) && RefTie(s, t, pc.p);
    PutRelocks(s, t, pc.p);
    OneFolio(s, t, pc.p, Put(Unlock(Fo(s, pc.p)), t), Grab(Freer, pc.a, pc.i, 0, Reads));
  }

  lemma KeepFreeTest(s: State, t: Task)
    requires Inv(s) && FreeIs(At(s, t), Locked) && At(s, t).i < |Ab(s, At(s, t).a).sg|
    ensures Inv(DoFreeTest(s, t, At(s, t)))
  {
    var pc := At(s, t);
    assert PcOk(s, t);
    if Ab(s, pc.a).sg[pc.i] == pc.p {
      assert EntryOk(s, pc.a, pc.i);
      NoFolio(s, t, Drop(Freer, pc.a, pc.i, pc.p, Mine));
    } else {
      KeepFreeMiss(s, t);
    }
  }

  /** The chunk never reached the page cache: it is unlocked first. */
  lemma KeepDropUnlock(s: State, t: Task)
    requires Inv(s) && At(s, t).Drop? && At(s, t).d.Mine? && !Fo(s, At(s, t).p).mapped
    ensures Inv(DoDrop(s, t, At(s, t)))
  {
    var pc := At(s, t);
    assert PcOk(s, t) && LockTie(s, t, pc.p) && RefTie(s, t, pc.p) && CountOk(s, pc.p) && HomeOk(s, pc.p);
    assert MtxTie(s, t, pc.a);
    UnlockRelocks(s, t, pc.p);
    OneFolio(s, t, pc.p, Unlock(Fo(s, pc.p)), pc.(d := Unlocked));
  }

  lemma DropLastPc(s: State, t: Task)
    requires Inv(s) && At(s, t).Drop? && At(s, t).d.LastPut?
    ensures PcOk(DoDrop(s, t, At(s, t)), t)
  {
    assert PcOk(s, t);
    if RfOf(At(s, t)).Some? { assert HomeOk(s, RfOf(At(s, t)).value); }
  }

  lemma KeepDropLast(s: State, t: Task)
    requires Inv(s) && At(s, t).Drop? && At(s, t).d.LastPut?
    ensures Inv(DoDrop(s, t, At(s, t)))
  {
    var pc := At(s, t);
    assert PcOk(s, t) && LockTie(s, t, pc.p) && RefTie(s, t, pc.p);
    PutRelocks(s, t, pc.p);
    DropLastPc(s, t);
    OneFolio(s, t, pc.p, Put(Fo(s, pc.p), t), NextDrop(pc));
  }

  /** A mapped folio without a private word stands behind no entry, unless its holder is migrating it. */
  lemma MappedHome(s: State, p: FolioId)
    requires Inv(s) && Fo(s, p).mapped && Fo(s, p).lock.None? && Fo(s, p).priv.NoPriv?
    ensures Fo(s, p).home.None?
  {
    assert HomeOk(s, p);
    if Fo(s, p).home.Some? {
      var m := Ab(s, Fo(s, p).home.value.abd).mtx;
      if m.Some? { NotUnmarked(s, m.value, p); }
    }
  }

  lemma NotUnmarked(s: State, u: Task, p: FolioId)
    requires Inv(s) && Fo(s, p).mapped
    ensures !Unmarks(At(s, u), p)
  {
    assert PcOk(s, u);
  }

  lemma KeepRcStart(s: State, t: Task)
    requires Inv(s) && At(s, t).Spec? && !At(s, t).locked
    requires Fo(s, At(s, t).p).mapped && Fo(s, At(s, t).p).lock.None?
    ensures Inv(DoRcStart(s, t, At(s, t)))
  {
    var p := At(s, t).p;
    var x := Fo(s, p);
    assert LockTie(s, t, p) && RefTie(s, t, p) && CountOk(s, p) && HomeOk(s, p) && HomelessOk(s, p);
    LockRelocks(s, t, p);
    if x.priv.NoPriv? { MappedHome(s, p); }
    OneFolio(s, t, p, LockBy(x, t), if x.priv.Names? then Reclaim(p, x.priv.abd, Entered) else Reclaim(p, 0, Released));
  }

  lemma KeepRcCount(s: State, t: Task)
    requires Inv(s) && ReclaimIs(At(s, t), Entered)
    ensures Inv(DoRcCount(s, t, At(s, t)))
  {
    var pc := At(s, t);
    assert PcOk(s, t);
    NoFolio(s, t, pc.(c := if Fo(s, pc.p).count == Fo(s, pc.p).nr + 2 then Counted else Refused));
  }

  lemma KeepRcPutBack(s: State, t: Task)
    requires Inv(s) && (ReclaimIs(At(s, t), Back) || ReclaimIs(At(s, t), Refused))
    ensures Inv(Go(SetF(s, At(s, t).p, Put(Unlock(Fo(s, At(s, t).p)), t)), t, Idle))
  {
    var p := At(s, t).p;
    assert LockTie(s, t, p) && RefTie(s, t, p);
    PutRelocks(s, t, p);
    OneFolio(s, t, p, Put(Unlock(Fo(s, p)), t), Idle);
  }

  lemma KeepClaimNext(s: State, t: Task)
    requires Inv(s) && ClaimIs(At(s, t), Sweep) && At(s, t).i < |Ab(s, At(s, t).a).sg|
    ensures Inv(Go(s, t, Grab(Claimer(At(s, t).rf), At(s, t).a, At(s, t).i, 0, Reads)))
  {
    assert PcOk(s, t);
    NoFolio(s, t, Grab(Claimer(At(s, t).rf), At(s, t).a, At(s, t).i, 0, Reads));
  }

  lemma KeepClaimRefuse(s: State, t: Task)
    requires Inv(s) && ClaimIs(At(s, t), Sweep)
    ensures Inv(Go(s, t, At(s, t).(k := Undo(0))))
  {
    assert PcOk(s, t);
    NoFolio(s, t, At(s, t).(k := Undo(0)));
  }

  lemma KeepMgStart(s: State, t: Task)
    requires Inv(s) && At(s, t).Spec? && !At(s, t).locked
    requires Fo(s, At(s, t).p).mapped && Fo(s, At(s, t).p).lock.None? && Fo(s, At(s, t).p).priv.Names?
    ensures Inv(DoMgStart(s, t, At(s, t)))
  {
    var p := At(s, t).p;
    var x := Fo(s, p);
    assert LockTie(s, t, p) && RefTie(s, t, p) && CountOk(s, p) && HomeOk(s, p) && HomelessOk(s, p);
    LockRelocks(s, t, p);
    OneFolio(s, t, p, LockBy(x, t), Move(p, 0, x.priv.abd, Isolated));
  }

  /** Passing the folio reclaim was called on gives up no other folio. */
  lemma ClaimSelfSame(s: State, t: Task, f: FolioId)
    requires Inv(s) && ClaimIs(At(s, t), Have) && At(s, t).rf == Some(At(s, t).p) && f != At(s, t).p
    ensures var pc := At(s, t); SameHeld(pc, Claim(pc.rf, pc.a, pc.i + 1, 0, Sweep), f, Fo(s, f).home)
  {
    var pc := At(s, t);
    assert PcOk(s, t) && HomeOk(s, f) && EntryOk(s, pc.a, pc.i) && HomeOk(s, pc.p);
  }

  lemma ClaimSelfTies(s: State, t: Task)
    requires Inv(s) && ClaimIs(At(s, t), Have) && At(s, t).rf == Some(At(s, t).p)
    ensures var pc := At(s, t);
            var y := Put(Fo(s, pc.p), t);
            Relocked(t, Fo(s, pc.p), y) && TieNow(t, Claim(pc.rf, pc.a, pc.i + 1, 0, Sweep), pc.p, y)
  {
    var pc := At(s, t);
    assert PcOk(s, t) && LockTie(s, t, pc.p) && RefTie(s, t, pc.p) && HomeOk(s, pc.p);
    PutRelocks(s, t, pc.p);
  }

  /** The folio reclaim was called on is met on the way: its extra reference goes back. */
  lemma KeepClaimSelf(s: State, t: Task)
    requires Inv(s) && ClaimIs(At(s, t), Have) && At(s, t).rf == Some(At(s, t).p)
    ensures Inv(DoClaimTry(s, t, At(s, t)))
  {
    var pc := At(s, t);
    var pc1 := Claim(pc.rf, pc.a, pc.i + 1, 0, Sweep);
    assert PcOk(s, t);
    ClaimSelfTies(s, t);
    forall f: FolioId | f != pc.p ensures SameHeld(pc, pc1, f, Fo(s, f).home) { ClaimSelfSame(s, t, f); }
    OneFolio(s, t, pc.p, Put(Fo(s, pc.p), t), pc1);
  }

  lemma KeepClaimLock(s: State, t: Task)
    requires Inv(s) && ClaimIs(At(s, t), Have) && At(s, t).rf != Some(At(s, t).p)
    requires Fo(s, At(s, t).p).lock.None?
    ensures Inv(Go(SetF(s, At(s, t).p, LockBy(Fo(s, At(s, t).p), t)), t, At(s, t).(k := Got)))
  {
    var pc := At(s, t);
    assert PcOk(s, t) && LockTie(s, t, pc.p) && RefTie(s, t, pc.p) && CountOk(s, pc.p);
    LockRelocks(s, t, pc.p);
    OneFolio(s, t, pc.p, LockBy(Fo(s, pc.p), t), pc.(k := Got));
  }

  lemma KeepClaimBusy(s: State, t: Task)
    requires Inv(s) && ClaimIs(At(s, t), Have) && At(s, t).rf != Some(At(s, t).p)
    ensures Inv(Go(SetF(s, At(s, t).p, Put(Fo(s, At(s, t).p), t)), t, At(s, t).(p := 0, k := Undo(0))))
  {
    var pc := At(s, t);
    assert PcOk(s, t) && LockTie(s, t, pc.p) && RefTie(s, t, pc.p);
    PutRelocks(s, t, pc.p);
    OneFolio(s, t, pc.p, Put(Fo(s, pc.p), t), pc.(p := 0, k := Undo(0)));
  }

  lemma KeepClaimMiss(s: State, t: Task)
    requires Inv(s) && ClaimIs(At(s, t), Got)
    ensures Inv(Go(SetF(s, At(s, t).p, Put(Unlock(Fo(s, At(s, t).p)), t)), t, At(s, t).(p := 0, k := Undo(0))))
  {
    var pc := At(s, t);
    assert PcOk(s, t) && LockTie(s, t, pc.p) && RefTie(s, t, pc.p);
    PutRelocks(s, t, pc.p);
    OneFolio(s, t, pc.p, Put(Unlock(Fo(s, pc.p)), t), pc.(p := 0, k := Undo(0)));
  }

  lemma KeepClaimTest(s: State, t: Task)
    requires Inv(s) && ClaimIs(At(s, t), Got) && At(s, t).i < |Ab(s, At(s, t).a).sg|
    ensures Inv(DoClaimTest(s, t, At(s, t)))
  {
    var pc := At(s, t);
    assert PcOk(s, t);
    if Ab(s, pc.a).sg[pc.i] == pc.p {
      var pc1 := Claim(pc.rf, pc.a, pc.i + 1, 0, Sweep);
      forall f: FolioId ensures SameHeld(pc, pc1, f, Fo(s, f).home) {
        assert HomeOk(s, f) && EntryOk(s, pc.a, pc.i);
      }
      NoFolio(s, t, pc1);
    } else {
      KeepClaimMiss(s, t);
    }
  }

  /** Undoing one entry gives up no other folio. */
  lemma UndoSame(s: State, t: Task, p: FolioId)
    requires Inv(s) && At(s, t).Claim? && At(s, t).k.Undo?
    requires At(s, t).k.lo < At(s, t).i && At(s, t).k.lo < |Ab(s, At(s, t).a).sg|
    requires p == Ab(s, At(s, t).a).sg[At(s, t).k.lo] && At(s, t).rf != Some(p)
    ensures forall f: FolioId :: f != p ==>
              SameHeld(At(s, t), At(s, t).(k := Undo(At(s, t).k.lo + 1)), f, Fo(s, f).home)
  {
    var pc := At(s, t);
    forall f: FolioId | f != p ensures SameHeld(pc, pc.(k := Undo(pc.k.lo + 1)), f, Fo(s, f).home) {
      assert HomeOk(s, f);
    }
  }

  lemma UndoTies(s: State, t: Task, p: FolioId)
    requires Inv(s) && At(s, t).Claim? && At(s, t).k.Undo?
    requires At(s, t).k.lo < At(s, t).i && At(s, t).k.lo < |Ab(s, At(s, t).a).sg|
    requires p == Ab(s, At(s, t).a).sg[At(s, t).k.lo] && At(s, t).rf != Some(p)
    ensures var y := Put(Unlock(Fo(s, p)), t);
            var pc1 := At(s, t).(k := Undo(At(s, t).k.lo + 1));
            Relocked(t, Fo(s, p), y) && TieNow(t, pc1, p, y)
  {
    assert PcOk(s, t) && EntryOk(s, At(s, t).a, At(s, t).k.lo) && LockTie(s, t, p) && RefTie(s, t, p);
    PutRelocks(s, t, p);
  }

  lemma UndoPc(s: State, t: Task, p: FolioId)
    requires Inv(s) && At(s, t).Claim? && At(s, t).k.Undo?
    requires At(s, t).k.lo < At(s, t).i && At(s, t).k.lo < |Ab(s, At(s, t).a).sg|
    requires p == Ab(s, At(s, t).a).sg[At(s, t).k.lo] && At(s, t).rf != Some(p)
    ensures PcOk(Go(SetF(s, p, Put(Unlock(Fo(s, p)), t)), t, At(s, t).(k := Undo(At(s, t).k.lo + 1))), t)
  {
    assert PcOk(s, t);
  }

  lemma KeepUndoOne(s: State, t: Task, p: FolioId)
    requires Inv(s) && At(s, t).Claim? && At(s, t).k.Undo?
    requires At(s, t).k.lo < At(s, t).i && At(s, t).k.lo < |Ab(s, At(s, t).a).sg|
    requires p == Ab(s, At(s, t).a).sg[At(s, t).k.lo] && At(s, t).rf != Some(p)
    ensures Inv(Go(SetF(s, p, Put(Unlock(Fo(s, p)), t)), t, At(s, t).(k := Undo(At(s, t).k.lo + 1))))
  {
    UndoSame(s, t, p);
    UndoTies(s, t, p);
    UndoPc(s, t, p);
    OneFolio(s, t, p, Put(Unlock(Fo(s, p)), t), At(s, t).(k := Undo(At(s, t).k.lo + 1)));
  }

  lemma KeepUndoStep(s: State, t: Task)
    requires Inv(s) && At(s, t).Claim? && At(s, t).k.Undo?
    requires At(s, t).k.lo < At(s, t).i && At(s, t).k.lo < |Ab(s, At(s, t).a).sg|
    ensures Inv(DoUndoStep(s, t, At(s, t)))
  {
    var pc := At(s, t);
    var p := Ab(s, pc.a).sg[pc.k.lo];
    var pc1 := pc.(k := Undo(pc.k.lo + 1));
    if pc.rf == Some(p) {
      assert PcOk(s, t);
      forall f: FolioId ensures SameHeld(pc, pc1, f, Fo(s, f).home) { assert HomeOk(s, f); }
      NoFolio(s, t, pc1);
    } else {
      KeepUndoOne(s, t, p);
    }
  }
}
