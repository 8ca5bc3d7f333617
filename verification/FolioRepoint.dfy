/** The end of a migration: the entry is pointed at the new folio, and the old one is let go. */
module FolioRepoint {
  import opened Basics
  import opened FolioMachine
  import opened FolioInvariant
  import opened FolioFrames
  import opened FolioLight
  import opened FolioCore
  import opened FolioFresh
  import opened FolioMove

  /** `VERIFY(found)`: the source stands behind exactly one entry, and that is the one found. */
  lemma {:induction false} RepointIndex(s: State, t: Task)
    requires Inv(s) && MoveIs(At(s, t), Moved)
    ensures var src := At(s, t).src;
            && Fo(s, src).home.Some? && Fo(s, src).home.value.abd == At(s, t).a
            && FirstNaming(Ab(s, At(s, t).a).sg, src, 0) == Some(Fo(s, src).home.value.idx)
  {
    var a := At(s, t).a;
    var src := At(s, t).src;
    assert PcOk(s, t) && HomeOk(s, src);
    var i := Fo(s, src).home.value.idx;
    forall j: nat | j < i ensures Ab(s, a).sg[j] != src { assert EntryOk(s, a, j) && Apart(s, a, j, i); }
  }

  /** What the repointing does, entry `k` being the source's. */
  ghost predicate RepointStep(s: State, s': State, t: Task, k: nat) {
    var pc := At(s, t);
    MoveIs(pc, Moved) &&
    var b := Ab(s, pc.a);
    && Fo(s, pc.src).home == Some(Entry(pc.a, k)) && pc.src != pc.dst
    && k < |b.sg| && b.sg[k] == pc.src && pc.dst !in b.sg && Fo(s, pc.dst).home.None?
    && At(s', t) == pc.(m := Done) && OthersStay(s, s', t)
    && Ab(s', pc.a) == b.(sg := b.sg[k := pc.dst])
    && (forall c: AbdId :: c != pc.a ==> Ab(s', c) == Ab(s, c))
    && (forall f: FolioId :: f != pc.src && f != pc.dst ==> Fo(s', f) == Fo(s, f))
    && Fo(s', pc.src) == Fo(s, pc.src).(home := None)
    && Fo(s', pc.dst) == Fo(s, pc.dst).(home := Some(Entry(pc.a, k)))
  }

  lemma RepointOne(s: State, s': State, t: Task, k: nat, f: FolioId)
    requires Inv(s) && RepointStep(s, s', t, k) && f != At(s, t).src && f != At(s, t).dst
    ensures CountOk(s', f) && HomeOk(s', f) && HomelessOk(s', f)
  {
    assert CountOk(s, f) && HomeOk(s, f) && HomelessOk(s, f);
    if Fo(s, f).home.Some? { assert Ab(s', Fo(s, f).home.value.abd).mtx == Ab(s, Fo(s, f).home.value.abd).mtx; }
  }

  lemma RepointTwo(s: State, s': State, t: Task, k: nat)
    requires Inv(s) && RepointStep(s, s', t, k)
    ensures var pc := At(s, t);
            && CountOk(s', pc.src) && HomelessOk(s', pc.src) && CountOk(s', pc.dst) && HomeOk(s', pc.dst)
  {
    var pc := At(s, t);
    assert PcOk(s, t) && CountOk(s, pc.src) && HomeOk(s, pc.src) && LockTie(s, t, pc.src);
    assert CountOk(s, pc.dst) && LockTie(s, t, pc.dst);
  }

  lemma RepointEntries(s: State, s': State, t: Task, k: nat)
    requires Inv(s) && RepointStep(s, s', t, k)
    ensures EntriesOk(s')
  {
    var pc := At(s, t);
    assert PcOk(s, t) && HomeOk(s, pc.src) && EntryOk(s, pc.a, k);
    forall c: AbdId, i: nat ensures EntryOk(s', c, i) { assert EntryOk(s, c, i); }
    forall c: AbdId, j: nat, i: nat ensures Apart(s', c, j, i) {
      assert Apart(s, c, j, i);
      if c == pc.a && j < |Ab(s, c).sg| { assert Ab(s, c).sg[j] in Ab(s, c).sg; }
    }
  }

  lemma NotSwept(s: State, t: Task, k: nat, u: Task)
    requires Inv(s) && MoveIs(At(s, t), Moved) && Fo(s, At(s, t).src).home == Some(Entry(At(s, t).a, k))
    ensures !Sweeps(At(s, u), At(s, t).a, k)
  {
    assert LockTie(s, u, At(s, t).src) && LockTie(s, t, At(s, t).src);
  }

  lemma RepointTies(s: State, s': State, t: Task, k: nat)
    requires Inv(s) && RepointStep(s, s', t, k)
    ensures TiesOk(s')
  {
    forall u: Task, f: FolioId ensures LockTie(s', u, f) && RefTie(s', u, f) {
      assert LockTie(s, u, f) && RefTie(s, u, f);
      NotSwept(s, t, k, u);
    }
    forall u: Task, c: AbdId ensures MtxTie(s', u, c) { assert MtxTie(s, u, c); }
    OtherTies(s, s', t);
  }

  /** Leaving entries out of account, no other task notices. */
  lemma RepointAside(s: State, s': State, t: Task, k: nat, u: Task)
    requires Inv(s) && RepointStep(s, s', t, k) && u != t
    ensures Kept(s, s'.(abds := s.abds), At(s, u))
  {
    var pc := At(s, t);
    var s1 := s'.(abds := s.abds);
    assert PcOk(s, t) && PcOk(s, u) && LockTie(s, t, pc.src) && LockTie(s, t, pc.dst);
    SourceIgnored(s, t, u);
    TargetIgnored(s, t, u);
    forall f: FolioId | f != pc.src && f != pc.dst ensures Eased(s, s1, f) { TargetEased(s, s1, t, pc.src, f); }
    AsideKept(s, s1, pc.src, pc.dst, At(s, u));
  }

  /** What a repointed entry asks of the tasks that use the buffer. */
  predicate EntriesKept(s: State, x: Abd, y: Abd, pc: Pc, k: nat) {
    && y == x.(sg := y.sg) && |y.sg| == |x.sg| && k < |x.sg|
    && (forall j :: 0 <= j < |x.sg| && j != k ==> y.sg[j] == x.sg[j])
    && (pc.Join? ==> !Fo(s, x.sg[k]).priv.Marker?)
    && (pc.Move? && !pc.m.Isolated? && !pc.m.Done? ==> y.sg[k] != pc.dst)
  }

  lemma KeptRepointed(s: State, s1: State, s': State, a: AbdId, k: nat, pc: Pc)
    requires Kept(s, s1, pc) && s'.folios == s1.folios && s'.pcs == s1.pcs && s1.abds == s.abds
    requires EntriesKept(s, Ab(s, a), Ab(s', a), pc, k)
    requires forall c: AbdId :: c != a ==> Ab(s', c) == Ab(s, c)
    ensures Kept(s, s', pc)
  {
    forall f: FolioId ensures Fo(s', f) == Fo(s1, f) && Holder(s', f) == Holder(s1, f) { }
    if pc.Join? {
      RepointedJoin(s, s1, s', a, k, pc);
    } else if pc.Move? {
      RepointedMove(s, s1, s', a, k, pc);
    } else if pc.Claim? || pc.Drop? {
      assert Ab(s', pc.a).gone == Ab(s, pc.a).gone && |Ab(s', pc.a).sg| == |Ab(s, pc.a).sg|;
    }
  }

  lemma RepointedJoin(s: State, s1: State, s': State, a: AbdId, k: nat, pc: Pc)
    requires Kept(s, s1, pc) && s'.folios == s1.folios && s'.pcs == s1.pcs && s1.abds == s.abds && pc.Join?
    requires EntriesKept(s, Ab(s, a), Ab(s', a), pc, k)
    requires forall c: AbdId :: c != a ==> Ab(s', c) == Ab(s, c)
    ensures Kept(s, s', pc)
  {
    assert Fo(s', pc.p) == Fo(s1, pc.p) && Holder(s', pc.p) == Holder(s1, pc.p);
  }

  lemma RepointedMove(s: State, s1: State, s': State, a: AbdId, k: nat, pc: Pc)
    requires Kept(s, s1, pc) && s'.folios == s1.folios && s'.pcs == s1.pcs && s1.abds == s.abds && pc.Move?
    requires EntriesKept(s, Ab(s, a), Ab(s', a), pc, k)
    requires forall c: AbdId :: c != a ==> Ab(s', c) == Ab(s, c)
    ensures Kept(s, s', pc)
  {
  }

  lemma RepointKept(s: State, s': State, t: Task, k: nat, u: Task)
    requires Inv(s) && RepointStep(s, s', t, k) && u != t
    ensures Kept(s, s', At(s, u))
  {
    var pc := At(s, t);
    RepointAside(s, s', t, k, u);
    assert PcOk(s, t) && PcOk(s, u) && LockTie(s, t, pc.dst) && LockTie(s, u, pc.dst);
    KeptRepointed(s, s'.(abds := s.abds), s', pc.a, k, At(s, u));
  }

  lemma RepointKeeps(s: State, s': State, t: Task, k: nat)
    requires Inv(s) && RepointStep(s, s', t, k) && PcOk(s', t)
    ensures Inv(s')
  {
    forall f: FolioId ensures CountOk(s', f) && HomeOk(s', f) && HomelessOk(s', f) {
      if f == At(s, t).src || f == At(s, t).dst { RepointTwo(s, s', t, k); } else { RepointOne(s, s', t, k, f); }
    }
    RepointEntries(s, s', t, k);
    RepointTies(s, s', t, k);
    forall u: Task ensures PcOk(s', u) {
      assert PcOk(s, u);
      if u != t {
        RepointKept(s, s', t, k, u);
        PcFrame(s, s', u);
      }
    }
  }

  lemma KeepMgRepoint(s: State, t: Task)
    requires Inv(s) && MoveIs(At(s, t), Moved)
    ensures Inv(DoMgRepoint(s, t, At(s, t))) && MoveIs(At(DoMgRepoint(s, t, At(s, t)), t), Done)
  {
    var pc := At(s, t);
    var s' := DoMgRepoint(s, t, pc);
    RepointIndex(s, t);
    var k := Fo(s, pc.src).home.value.idx;
    assert PcOk(s, t) && HomeOk(s, pc.src);
    assert RepointStep(s, s', t, k);
    RepointKeeps(s, s', t, k);
  }

  // ----- the new folio is released -----

  lemma DoneIgnored(s: State, t: Task, u: Task)
    requires Inv(s) && MoveIs(At(s, t), Done) && u != t
    ensures !Leans(s, At(s, u), At(s, t).dst)
  {
    var dst := At(s, t).dst;
    assert PcOk(s, t) && PcOk(s, u) && LockTie(s, t, dst);
    LockedIgnored(s, t, dst, u);
  }

  lemma DoneKept(s: State, s': State, t: Task, u: Task)
    requires Inv(s) && MoveIs(At(s, t), Done) && u != t
    requires s' == Backed(s, t)
    ensures Kept(s, s', At(s, u))
  {
    var pc := At(s, t);
    DoneIgnored(s, t, u);
    assert PcOk(s, t) && LockTie(s, t, pc.dst);
    forall f: FolioId | f != pc.dst ensures Eased(s, s', f) { TargetEased(s, s', t, pc.dst, f); }
    AsideKept(s, s', pc.dst, pc.dst, At(s, u));
  }

  lemma DoneFolios(s: State, s': State, t: Task)
    requires Inv(s) && MoveIs(At(s, t), Done)
    requires s' == Backed(s, t)
    ensures var pc := At(s, t);
            && CountOk(s', pc.src) && HomelessOk(s', pc.src) && Fo(s, pc.src).home.None?
            && CountOk(s', pc.dst) && HomeOk(s', pc.dst) && Fo(s, pc.dst).home.Some?
  {
    var pc := At(s, t);
    assert PcOk(s, t) && CountOk(s, pc.src) && HomelessOk(s, pc.src) && LockTie(s, t, pc.src);
    assert CountOk(s, pc.dst) && HomeOk(s, pc.dst) && LockTie(s, t, pc.dst);
  }

  lemma DonePlaces(s: State, s': State, t: Task)
    requires Inv(s) && MoveIs(At(s, t), Done)
    requires s' == Backed(s, t)
    ensures var pc := At(s, t);
            && PlaceKept(s, s', pc.src) && PlaceKept(s, s', pc.dst) && PcOk(s', t)
            && LockTie(s', t, pc.src) && RefTie(s', t, pc.src) && LockTie(s', t, pc.dst) && RefTie(s', t, pc.dst)
  {
    var pc := At(s, t);
    assert PcOk(s, t) && HomeOk(s, pc.dst) && HomelessOk(s, pc.src) && CountOk(s, pc.src);
    assert LockTie(s, t, pc.src) && RefTie(s, t, pc.src) && LockTie(s, t, pc.dst) && RefTie(s, t, pc.dst);
  }

  lemma KeepMgDone(s: State, t: Task)
    requires Inv(s) && MoveIs(At(s, t), Done)
    ensures Inv(Backed(s, t))
  {
    var pc := At(s, t);
    var s' := Backed(s, t);
    DoneFolios(s, s', t);
    DonePlaces(s, s', t);
    forall u: Task | u != t ensures Kept(s, s', At(s, u)) { DoneKept(s, s', t, u); }
    assert PcOk(s, t) && LockTie(s, t, pc.src) && LockTie(s, t, pc.dst);
    assert CoreStep(s, s', t, pc.dst, pc.src) by {
      forall f: FolioId | f != pc.dst && f != pc.src ensures Untouched(s, s', t, f) { }
    }
    CoreKeeps(s, s', t, pc.dst, pc.src);
  }
}
