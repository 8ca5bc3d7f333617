/**
 Frame lemmas: what one task's step cannot disturb. A light step only takes or drops references
 and folio locks; everything else another task relies on is then the same as before.
 */
module FolioFrames {
  import opened Basics
  import opened FolioMachine
  import opened FolioInvariant

  // ----- what tasks rely on -----

  /** Everything about a folio but its count, its references and its lock. */
  predicate SameCore(x: Folio, y: Folio) {
    && y.nr == x.nr && y.frozen == x.frozen && y.alloc == x.alloc && y.priv == x.priv
    && y.mapped == x.mapped && y.bytes == x.bytes && y.home == x.home
  }

  /** What a task relies on about a folio it holds; the joiner may drop the allocation reference. */
  predicate FolioKept(x: Folio, y: Folio) {
    && SameCore(x, y.(alloc := x.alloc)) && (y.alloc ==> x.alloc)
    && (x.frozen ==> y.grabs == x.grabs)
  }

  predicate WhollyKept(x: Folio, y: Folio) { FolioKept(x, y) && y.alloc == x.alloc }

  /** What the builder and the freer of a buffer rely on: all but its mutex and where its entries point. */
  predicate AbdKept(x: Abd, y: Abd) {
    y.alive == x.alive && y.built == x.built && y.dying == x.dying && y.gone == x.gone && |y.sg| == |x.sg|
  }

  ghost predicate RfKept(s: State, s': State, rf: Option<FolioId>) {
    rf.Some? ==> FolioKept(Fo(s, rf.value), Fo(s', rf.value))
  }

  ghost predicate MarkersKept(s: State, s': State, a: AbdId, i: nat) {
    var sg := Ab(s, a).sg;
    var sg' := Ab(s', a).sg;
    |sg'| == |sg| &&
    forall j :: i <= j < |sg| && Fo(s, sg[j]).priv.Marker? ==> sg'[j] == sg[j] && Fo(s', sg[j]).priv.Marker?
  }

  /** A program point that took `p` through an entry and has not yet looked again. */
  predicate Stands(pc: Pc, p: FolioId) {
    (pc.Free? && (pc.r.Locking? || pc.r.Locked?) && pc.p == p) || (pc.Claim? && (pc.k.Have? || pc.k.Got?) && pc.p == p)
  }

  ghost predicate StandsKept(s: State, s': State, p: FolioId) {
    (Fo(s', p).home == Fo(s, p).home && (Targets(Holder(s', p), p) ==> Targets(Holder(s, p), p))) ||
    (Fo(s', p).home.None? && !Targets(Holder(s', p), p))
  }

  /** What a task at `pc` relies on is the same in both states. */
  ghost predicate Kept(s: State, s': State, pc: Pc) {
    match pc
    case Building(a) => AbdKept(Ab(s, a), Ab(s', a)) && Ab(s', a).mtx == Ab(s, a).mtx
    case Spec(p, locked) => locked ==> FolioKept(Fo(s, p), Fo(s', p))
    case Grab(w, a, _, _, _) => GrabKept(Ab(s, a), Ab(s', a), w) && RfKept(s, s', RfOf(pc))
    case Reading(p, _) =>
      Fo(s', p).bytes == Fo(s, p).bytes && (FillsInto(Holder(s', p), p) ==> FillsInto(Holder(s, p), p))
    case Join(a, i, p, j) =>
      && GrabKept(Ab(s, a), Ab(s', a), Claimer(None))
      && (!j.NextJoin? ==> WhollyKept(Fo(s, p), Fo(s', p)) && (Targets(Holder(s', p), p) ==> Targets(Holder(s, p), p)))
      && MarkersKept(s, s', a, i + One(!j.NextJoin?))
    case Free(a, _, p, r) =>
      && GrabKept(Ab(s, a), Ab(s', a), Freer)
      && (Stands(pc, p) ==> StandsKept(s, s', p))
    case Drop(_, a, _, p, _) =>
      && AbdKept(Ab(s, a), Ab(s', a)) && WhollyKept(Fo(s, p), Fo(s', p)) && RfKept(s, s', RfOf(pc))
      && (Targets(Holder(s', p), p) ==> Targets(Holder(s, p), p))
    case Reclaim(p, _, _) => FolioKept(Fo(s, p), Fo(s', p))
    case Claim(rf, a, _, p, k) =>
      && GrabKept(Ab(s, a), Ab(s', a), if k.Evicting? then Freer else Claimer(rf)) && RfKept(s, s', rf)
      && (Stands(pc, p) ==> StandsKept(s, s', p))
    case Move(src, dst, a, m) =>
      && FolioKept(Fo(s, src), Fo(s', src))
      && (!m.Isolated? ==> WhollyKept(Fo(s, dst), Fo(s', dst)))
      && (!m.Isolated? && !m.Done? ==>
            && (Ab(s, a).built ==> Ab(s', a).built) && (Ab(s, a).lru ==> Ab(s', a).lru)
            && (dst in Ab(s', a).sg ==> dst in Ab(s, a).sg))
    case _ => true
  }

  /** What a walk over the entries of a buffer relies on. */
  predicate GrabKept(x: Abd, y: Abd, w: Who) {
    && y.alive == x.alive && (x.built ==> y.built) && (x.lru ==> y.lru) && |y.sg| == |x.sg|
    && (w.Reader? ==> y.dying == x.dying)
    && (w.Freer? ==> y.dying == x.dying && y.gone == x.gone)
    && (w.Claimer? ==> y.gone == x.gone)
  }

  lemma FrameA(s: State, s': State, u: Task)
    requires PcOk(s, u) && At(s', u) == At(s, u) && Kept(s, s', At(s, u))
    ensures SpecOk(s', u) && ReadOk(s', u) && JoinOk(s', u)
  {
  }

  lemma FrameB(s: State, s': State, u: Task)
    requires PcOk(s, u) && At(s', u) == At(s, u) && Kept(s, s', At(s, u))
    ensures FreeOk(s', u) && ClaimOk(s', u) && MoveOk(s', u)
  {
  }

  lemma PcFrame(s: State, s': State, u: Task)
    requires PcOk(s, u) && At(s', u) == At(s, u) && Kept(s, s', At(s, u))
    ensures PcOk(s', u)
  {
    FrameA(s, s', u);
    FrameB(s, s', u);
  }

  lemma KeptByAll(s: State, s': State, pc: Pc)
    requires s'.abds == s.abds
    requires forall f: FolioId :: WhollyKept(Fo(s, f), Fo(s', f))
    requires pc.Reading? && FillsInto(Holder(s', pc.p), pc.p) ==> FillsInto(Holder(s, pc.p), pc.p)
    requires (pc.Drop? || pc.Join? || pc.Free? || pc.Claim?) && Targets(Holder(s', pc.p), pc.p) ==>
             Targets(Holder(s, pc.p), pc.p)
    ensures Kept(s, s', pc)
  {
  }

  // ----- light steps -----

  /** No fact about a folio or buffer mentions a task at such a program point. */
  predicate Plain(pc: Pc) {
    !((pc.Join? && !pc.j.NextJoin?) || (pc.Drop? && (pc.d.Removed? || pc.d.Unmarked?)) || (pc.Move? && !pc.m.Isolated?))
  }

  /** `y` is `x` after references and locks of task `t` changed hands. */
  ghost predicate Relocked(t: Task, x: Folio, y: Folio) {
    && SameCore(x, y)
    && y.count - x.count == |y.grabs| - |x.grabs|
    && (x.frozen ==> y == x)
    && OthersHold(t, x, y)
  }

  ghost predicate OthersHold(t: Task, x: Folio, y: Folio) {
    && (forall u: Task :: u != t ==> (y.lock == Some(u) <==> x.lock == Some(u)))
    && (forall u: Task :: u != t ==> y.grabs[u] == x.grabs[u])
  }

  /** `pc1` brings no task into a role that another task's facts exclude. */
  ghost predicate NoNewRole(pc: Pc, pc1: Pc) {
    forall a: AbdId :: (Builds(pc1, a) ==> Builds(pc, a)) && (GivesUp(pc1, a) ==> GivesUp(pc, a)) &&
                       (AwaitsFree(pc1, a) ==> AwaitsFree(pc, a))
  }

  ghost predicate RelockedAt(s: State, s': State, t: Task, f: FolioId) { Relocked(t, Fo(s, f), Fo(s', f)) }

  ghost predicate OthersStay(s: State, s': State, t: Task) { forall u: Task :: u != t ==> At(s', u) == At(s, u) }

  ghost predicate LightStep(s: State, s': State, t: Task) {
    && s'.abds == s.abds
    && OthersStay(s, s', t)
    && Plain(At(s, t)) && Plain(At(s', t)) && NoNewRole(At(s, t), At(s', t))
    && forall f: FolioId :: RelockedAt(s, s', t, f)
  }

  /** A folio's lock holder is the same, or it is the stepping task and no fact mentions it. */
  lemma HolderSame(s: State, s': State, t: Task, f: FolioId)
    requires Plain(At(s, t)) && Plain(At(s', t)) && OthersStay(s, s', t)
    requires forall u: Task :: u != t ==> (Fo(s', f).lock == Some(u) <==> Fo(s, f).lock == Some(u))
    ensures Holder(s', f) == Holder(s, f) || (Plain(Holder(s', f)) && Plain(Holder(s, f)))
  {
    var k := Fo(s, f).lock;
    var k' := Fo(s', f).lock;
    if k.Some? && k.value != t { assert k' == Some(k.value); }
    if k'.Some? && k'.value != t { assert k == Some(k'.value); }
  }

  lemma LightCount(s: State, s': State, t: Task, f: FolioId)
    requires CountOk(s, f) && HomelessOk(s, f) && LightStep(s, s', t)
    ensures CountOk(s', f) && HomelessOk(s', f)
  {
    assert RelockedAt(s, s', t, f);
    HolderSame(s, s', t, f);
  }

  lemma LightHome(s: State, s': State, t: Task, f: FolioId)
    requires HomeOk(s, f) && LightStep(s, s', t)
    ensures HomeOk(s', f)
  {
    assert RelockedAt(s, s', t, f);
    HolderSame(s, s', t, f);
  }

  lemma LightEntries(s: State, s': State, t: Task)
    requires EntriesOk(s) && LightStep(s, s', t)
    ensures EntriesOk(s')
  {
    forall a: AbdId, i: nat ensures EntryOk(s', a, i) {
      assert EntryOk(s, a, i);
      if i < |Ab(s, a).sg| { assert RelockedAt(s, s', t, Ab(s, a).sg[i]); }
    }
    forall a: AbdId, k: nat, i: nat ensures Apart(s', a, k, i) { assert Apart(s, a, k, i); }
  }

  /** Ties of the other tasks, for any step that leaves their references, locks and roles alone. */
  lemma OtherTies(s: State, s': State, t: Task)
    requires TiesOk(s) && OthersStay(s, s', t) && NoNewRole(At(s, t), At(s', t))
    requires forall f: FolioId :: LockTie(s', t, f)
    requires forall f: FolioId :: RefTie(s', t, f)
    requires forall a: AbdId :: MtxTie(s', t, a)
    requires forall u: Task, f: FolioId :: u != t ==> LockTie(s', u, f)
    requires forall u: Task, f: FolioId :: u != t ==> RefTie(s', u, f)
    requires forall u: Task, a: AbdId :: u != t ==> MtxTie(s', u, a)
    ensures TiesOk(s')
  {
    forall u: Task, v: Task, a: AbdId ensures Alone(s', u, v, a) { assert Alone(s, u, v, a); }
  }

  lemma LightTies(s: State, s': State, t: Task)
    requires TiesOk(s) && LightStep(s, s', t)
    requires MtxOf(At(s', t)) == MtxOf(At(s, t))
    requires forall f: FolioId :: LockTie(s', t, f)
    requires forall f: FolioId :: RefTie(s', t, f)
    ensures TiesOk(s')
  {
    forall u: Task, f: FolioId | u != t ensures LockTie(s', u, f) && RefTie(s', u, f) {
      assert LockTie(s, u, f) && RefTie(s, u, f) && RelockedAt(s, s', t, f);
    }
    forall u: Task, a: AbdId ensures MtxTie(s', u, a) { assert MtxTie(s, u, a); }
    OtherTies(s, s', t);
  }

  lemma LightKept(s: State, s': State, t: Task, u: Task)
    requires LightStep(s, s', t) && u != t
    ensures Kept(s, s', At(s, u))
  {
    forall f: FolioId ensures WhollyKept(Fo(s, f), Fo(s', f)) { assert RelockedAt(s, s', t, f); }
    if At(s, u).Reading? || At(s, u).Drop? || At(s, u).Join? || At(s, u).Free? || At(s, u).Claim? {
      assert RelockedAt(s, s', t, At(s, u).p);
      HolderSame(s, s', t, At(s, u).p);
    }
    KeptByAll(s, s', At(s, u));
  }

  /** What remains to be shown of a light step: the ties and the facts of the one that took it. */
  lemma LightKeeps(s: State, s': State, t: Task)
    requires Inv(s) && LightStep(s, s', t)
    requires MtxOf(At(s', t)) == MtxOf(At(s, t))
    requires forall f: FolioId :: LockTie(s', t, f)
    requires forall f: FolioId :: RefTie(s', t, f)
    requires PcOk(s', t)
    ensures Inv(s')
  {
    forall f: FolioId ensures CountOk(s', f) && HomeOk(s', f) && HomelessOk(s', f) {
      assert CountOk(s, f) && HomeOk(s, f) && HomelessOk(s, f);
      LightCount(s, s', t, f);
      LightHome(s, s', t, f);
    }
    LightEntries(s, s', t);
    LightTies(s, s', t);
    forall u: Task ensures PcOk(s', u) {
      assert PcOk(s, u);
      if u != t {
        LightKept(s, s', t, u);
        PcFrame(s, s', u);
      }
    }
  }
}
