/** Joining, dropping and migrating: the steps that change what a folio is. */
module FolioHeavy {
  import opened Basics
  import opened FolioMachine
  import opened FolioInvariant
  import opened FolioFrames
  import opened FolioLight
  import opened FolioCore

  /** One folio changes, in place; `t` stays a holder of it. */
  lemma OneCore(s: State, t: Task, p: FolioId, y: Folio, pc1: Pc)
    requires Inv(s)
    requires OthersHold(t, Fo(s, p), y) && PlaceKept(s, Go(SetF(s, p, y), t, pc1), p)
    requires forall f: FolioId :: f != p ==> !Concerns(At(s, t), f) && !Concerns(pc1, f)
    requires MtxOf(pc1) == MtxOf(At(s, t)) && NoNewRole(At(s, t), pc1)
    requires TieNow(t, pc1, p, y)
    requires forall f: FolioId :: f != p ==> SameHeld(At(s, t), pc1, f, Fo(s, f).home)
    requires CountOk(Go(SetF(s, p, y), t, pc1), p) && HomeOk(Go(SetF(s, p, y), t, pc1), p)
    requires HomelessOk(Go(SetF(s, p, y), t, pc1), p)
    requires forall u: Task :: u != t ==> Kept(s, Go(SetF(s, p, y), t, pc1), At(s, u))
    requires PcOk(Go(SetF(s, p, y), t, pc1), t)
    ensures Inv(Go(SetF(s, p, y), t, pc1))
  {
    var s' := Go(SetF(s, p, y), t, pc1);
    assert CoreStep(s, s', t, p, p) by {
      forall f: FolioId | f != p ensures Untouched(s, s', t, f) { }
    }
    CoreKeeps(s, s', t, p, p);
  }

  /** A step that changes folio `p` only. */
  lemma OneKept(s: State, t: Task, p: FolioId, y: Folio, pc1: Pc, u: Task)
    requires u != t && OthersHold(t, Fo(s, p), y) && StandsKept(s, Go(SetF(s, p, y), t, pc1), p)
    requires forall f: FolioId :: f != p ==> !Concerns(At(s, t), f) && !Concerns(pc1, f)
    requires Ignores(s, Go(SetF(s, p, y), t, pc1), At(s, u), p)
    ensures Kept(s, Go(SetF(s, p, y), t, pc1), At(s, u))
  {
    var s' := Go(SetF(s, p, y), t, pc1);
    forall f: FolioId | f != p ensures Untouched(s, s', t, f) { }
    CoreKept(s, s', t, p, p, u);
  }

  // ----- join -----

  lemma KeepJoinMark(s: State, t: Task)
    requires Inv(s) && JoinIs(At(s, t), NextJoin) && At(s, t).i < |Ab(s, At(s, t).a).sg|
    ensures Inv(DoJoinMark(s, t, At(s, t)))
  {
    var pc := At(s, t);
    var p := Ab(s, pc.a).sg[pc.i];
    var y := LockBy(Fo(s, p).(priv := Names(pc.a)), t);
    var pc1 := pc.(p := p, j := Adding);
    var s' := Go(SetF(s, p, y), t, pc1);
    assert PcOk(s, t) && EntryOk(s, pc.a, pc.i);
    assert CountOk(s, p) && HomeOk(s, p) && LockTie(s, t, p) && RefTie(s, t, p);
    MarkerUnlocked(s, t, pc.a, pc.i, p);
    forall u: Task | u != t ensures Kept(s, s', At(s, u)) {
      MarkerIgnored(s, t, pc.a, pc.i, p, u);
      OneKept(s, t, p, y, pc1, u);
    }
    assert EntryOk(s, pc.a, 0);
    JoinRest(s, s', pc.a, pc.i, p);
    OneCore(s, t, p, y, pc1);
  }

  /** The chunks after the one in hand are other folios. */
  lemma JoinRest(s: State, s': State, a: AbdId, i: nat, p: FolioId)
    requires EntriesOk(s) && RestUnjoined(s, a, i) && i < |Ab(s, a).sg| && Ab(s, a).sg[i] == p
    requires s'.abds == s.abds && forall f: FolioId :: f != p ==> Fo(s', f) == Fo(s, f)
    ensures RestUnjoined(s', a, i + 1)
  {
    forall j | i + 1 <= j < |Ab(s, a).sg| ensures Fo(s', Ab(s, a).sg[j]).priv.Marker? {
      assert EntryOk(s, a, i) && EntryOk(s, a, j);
    }
  }

  /** Nobody else notices what the joiner does to a chunk while it has it locked. */
  lemma JoinKept(s: State, t: Task, y: Folio, pc1: Pc, u: Task)
    requires Inv(s) && (JoinIs(At(s, t), Adding) || JoinIs(At(s, t), Added)) && u != t
    requires pc1.Join? && (pc1.j.NextJoin? || pc1.p == At(s, t).p)
    requires OthersHold(t, Fo(s, At(s, t).p), y) && y.bytes == Fo(s, At(s, t).p).bytes &&
             y.home == Fo(s, At(s, t).p).home
    requires y.lock.None? || y.lock == Some(t)
    ensures Kept(s, Go(SetF(s, At(s, t).p, y), t, pc1), At(s, u))
  {
    var pc := At(s, t);
    assert PcOk(s, t) && HomeOk(s, pc.p) && LockTie(s, t, pc.p) && MtxTie(s, t, pc.a) && MtxTie(s, u, pc.a);
    assert PcOk(s, u);
    LockedIgnored(s, t, pc.p, u);
    OneKept(s, t, pc.p, y, pc1, u);
  }

  lemma KeepJoinAdded(s: State, t: Task)
    requires Inv(s) && JoinIs(At(s, t), Adding)
    ensures Inv(DoJoinAdd(s, t, At(s, t), true))
  {
    var pc := At(s, t);
    var p := pc.p;
    var y := Fo(s, p).(mapped := true, count := Fo(s, p).count + Fo(s, p).nr);
    var pc1 := pc.(j := Added);
    var s' := Go(SetF(s, p, y), t, pc1);
    assert PcOk(s, t) && CountOk(s, p) && HomeOk(s, p) && LockTie(s, t, p) && RefTie(s, t, p) && MtxTie(s, t, pc.a);
    forall u: Task | u != t ensures Kept(s, s', At(s, u)) { JoinKept(s, t, y, pc1, u); }
    RestAfter(s, s', pc.a, pc.i + 1, p);
    OneCore(s, t, p, y, pc1);
  }

  lemma KeepJoinFailed(s: State, t: Task)
    requires Inv(s) && JoinIs(At(s, t), Adding)
    ensures Inv(DoJoinAdd(s, t, At(s, t), false))
  {
    var pc := At(s, t);
    var p := pc.p;
    var y := Fo(s, p).(lock := None, priv := Marker);
    var pc1 := Join(pc.a, pc.i + 1, 0, NextJoin);
    var s' := Go(SetF(s, p, y), t, pc1);
    assert PcOk(s, t) && CountOk(s, p) && HomeOk(s, p) && LockTie(s, t, p) && RefTie(s, t, p) && MtxTie(s, t, pc.a);
    forall u: Task | u != t ensures Kept(s, s', At(s, u)) { JoinKept(s, t, y, pc1, u); }
    RestAfter(s, s', pc.a, pc.i + 1, p);
    OneCore(s, t, p, y, pc1);
  }

  lemma KeepJoinAdd(s: State, t: Task, ok: bool)
    requires Inv(s) && JoinIs(At(s, t), Adding)
    ensures Inv(DoJoinAdd(s, t, At(s, t), ok))
  {
    if ok { KeepJoinAdded(s, t); } else { KeepJoinFailed(s, t); }
  }

  /** Changing the folio in hand leaves the markers of the rest. */
  lemma RestAfter(s: State, s': State, a: AbdId, i: nat, p: FolioId)
    requires EntriesOk(s) && RestUnjoined(s, a, i) && i >= 1 && Behind(s, p, a, i - 1)
    requires s'.abds == s.abds && forall f: FolioId :: f != p ==> Fo(s', f) == Fo(s, f)
    ensures RestUnjoined(s', a, i)
  {
    forall j | i <= j < |Ab(s, a).sg| ensures Fo(s', Ab(s, a).sg[j]).priv.Marker? { assert EntryOk(s, a, j); }
  }

  lemma KeepJoinUnlock(s: State, t: Task)
    requires Inv(s) && JoinIs(At(s, t), Added)
    ensures Inv(Go(SetF(s, At(s, t).p, Unlock(Fo(s, At(s, t).p))), t, At(s, t).(j := Putting)))
  {
    var pc := At(s, t);
    var p := pc.p;
    var y := Unlock(Fo(s, p));
    var pc1 := pc.(j := Putting);
    var s' := Go(SetF(s, p, y), t, pc1);
    assert PcOk(s, t) && CountOk(s, p) && HomeOk(s, p) && LockTie(s, t, p) && RefTie(s, t, p) && MtxTie(s, t, pc.a);
    forall u: Task | u != t ensures Kept(s, s', At(s, u)) { JoinKept(s, t, y, pc1, u); }
    RestAfter(s, s', pc.a, pc.i + 1, p);
    OneCore(s, t, p, y, pc1);
  }

  /** The state once the joiner has dropped the allocation's reference. */
  function AfterPut(s: State, t: Task): State
    requires At(s, t).Join?
  {
    Go(SetF(s, At(s, t).p, PutAlloc(Fo(s, At(s, t).p))), t, Join(At(s, t).a, At(s, t).i + 1, 0, NextJoin))
  }

  /** Nobody else joins or drops a chunk of the buffer, and no migration has the folio as its target. */
  lemma PutAlone(s: State, t: Task, u: Task)
    requires Inv(s) && JoinIs(At(s, t), Putting) && u != t
    ensures At(s, u).Drop? ==> At(s, u).p != At(s, t).p
    ensures At(s, u).Join? && !At(s, u).j.NextJoin? ==> At(s, u).p != At(s, t).p
    ensures At(s, u).Move? && !At(s, u).m.Isolated? ==> At(s, u).dst != At(s, t).p
  {
    var p := At(s, t).p;
    assert PcOk(s, t) && PcOk(s, u) && HomeOk(s, p);
    assert MtxTie(s, t, At(s, t).a) && MtxTie(s, u, At(s, t).a) && LockTie(s, u, p);
  }

  /** Other tasks that hold the folio rely on its private word and mapping, not on this reference. */
  lemma PutKept(s: State, t: Task, u: Task)
    requires Inv(s) && JoinIs(At(s, t), Putting) && u != t
    ensures Kept(s, AfterPut(s, t), At(s, u))
  {
    var p := At(s, t).p;
    var s' := AfterPut(s, t);
    PutAlone(s, t, u);
    assert Fo(s', p) == PutAlloc(Fo(s, p)) && forall f: FolioId :: f != p ==> Fo(s', f) == Fo(s, f);
    PutKeptPlain(s, s', t, p, At(s, u));
  }

  lemma PutHolder(s: State, s': State, t: Task, p: FolioId, f: FolioId)
    requires s'.abds == s.abds && JoinIs(At(s, t), Putting) && JoinIs(At(s', t), NextJoin) && OthersStay(s, s', t)
    requires Fo(s', p) == PutAlloc(Fo(s, p)) && forall f: FolioId :: f != p ==> Fo(s', f) == Fo(s, f)
    ensures FillsInto(Holder(s', f), f) ==> FillsInto(Holder(s, f), f)
    ensures Targets(Holder(s', f), f) ==> Targets(Holder(s, f), f)
    ensures FolioKept(Fo(s, f), Fo(s', f)) && (f != p ==> WhollyKept(Fo(s, f), Fo(s', f)))
  {
  }

  lemma PutKeptPlain(s: State, s': State, t: Task, p: FolioId, pc: Pc)
    requires s'.abds == s.abds && JoinIs(At(s, t), Putting) && JoinIs(At(s', t), NextJoin) && OthersStay(s, s', t)
    requires Fo(s', p) == PutAlloc(Fo(s, p)) && forall f: FolioId :: f != p ==> Fo(s', f) == Fo(s, f)
    requires (pc.Drop? ==> pc.p != p) && (pc.Join? && !pc.j.NextJoin? ==> pc.p != p)
    requires pc.Move? && !pc.m.Isolated? ==> pc.dst != p
    ensures Kept(s, s', pc)
  {
    forall f: FolioId
      ensures FillsInto(Holder(s', f), f) ==> FillsInto(Holder(s, f), f)
      ensures Targets(Holder(s', f), f) ==> Targets(Holder(s, f), f)
      ensures FolioKept(Fo(s, f), Fo(s', f)) && (f != p ==> WhollyKept(Fo(s, f), Fo(s', f)))
    {
      PutHolder(s, s', t, p, f);
    }
  }

  lemma KeepJoinPut(s: State, t: Task)
    requires Inv(s) && JoinIs(At(s, t), Putting)
    ensures Inv(AfterPut(s, t))
  {
    var p := At(s, t).p;
    var s' := AfterPut(s, t);
    forall u: Task | u != t ensures Kept(s, s', At(s, u)) { PutKept(s, t, u); }
    PutFolioOk(s, t);
    PutTies(s, t);
    PutAside(s, t);
    PutCore(s, t);
    CoreKeeps(s, s', t, p, p);
  }

  lemma PutCore(s: State, t: Task)
    requires JoinIs(At(s, t), Putting)
    ensures CoreStep(s, AfterPut(s, t), t, At(s, t).p, At(s, t).p)
  {
    forall f: FolioId | f != At(s, t).p ensures Untouched(s, AfterPut(s, t), t, f) { }
  }

  lemma PutTies(s: State, t: Task)
    requires Inv(s) && JoinIs(At(s, t), Putting)
    ensures var p := At(s, t).p;
            var s' := AfterPut(s, t);
            LockTie(s', t, p) && RefTie(s', t, p) && PlaceKept(s, s', p) && PcOk(s', t)
  {
    var pc := At(s, t);
    var p := pc.p;
    var s' := AfterPut(s, t);
    assert PcOk(s, t) && LockTie(s, t, p) && RefTie(s, t, p);
    RestAfter(s, s', pc.a, pc.i + 1, p);
  }

  lemma PutAside(s: State, t: Task)
    requires JoinIs(At(s, t), Putting)
    ensures var p := At(s, t).p;
            var pc1 := Join(At(s, t).a, At(s, t).i + 1, 0, NextJoin);
            && MtxOf(pc1) == MtxOf(At(s, t)) && NoNewRole(At(s, t), pc1)
            && forall f: FolioId :: f != p ==> SameHeld(At(s, t), pc1, f, Fo(s, f).home)
  {
  }

  /** The count a migration waits for is not reached while the joiner has a reference to drop. */
  lemma PutNotFrozen(s: State, t: Task, u: Task)
    requires Inv(s) && JoinIs(At(s, t), Putting)
    ensures !InFreeze(At(s, u), At(s, t).p)
  {
    assert PcOk(s, t) && PcOk(s, u);
  }

  lemma PutFolioOk(s: State, t: Task)
    requires Inv(s) && JoinIs(At(s, t), Putting)
    ensures var p := At(s, t).p;
            var s' := AfterPut(s, t);
            CountOk(s', p) && HomeOk(s', p) && HomelessOk(s', p)
  {
    var p := At(s, t).p;
    assert PcOk(s, t) && CountOk(s, p) && HomeOk(s, p) && LockTie(s, t, p);
    if Fo(s, p).lock.Some? { PutNotFrozen(s, t, Fo(s, p).lock.value); }
  }
}
