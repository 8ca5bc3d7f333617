/** The steps that only change the flags or the mutex of one buffer keep the invariant. */
module FolioFlags {
  import opened Basics
  import opened FolioMachine
  import opened FolioInvariant
  import opened FolioFrames
  import opened FolioLight

  ghost predicate FlagStep(s: State, s': State, t: Task, a: AbdId) {
    var x := Ab(s, a);
    var y := Ab(s', a);
    && s'.folios == s.folios
    && OthersStay(s, s', t)
    && Plain(At(s, t)) && Plain(At(s', t))
    && (forall b: AbdId :: b != a ==> Ab(s', b) == Ab(s, b))
    && y.sg == x.sg && y.data == x.data && y.gone == x.gone
    && (x.lru ==> y.lru) && (x.built ==> y.built) && (x.dying ==> y.dying)
    && (y.alive == x.alive || x.gone == |x.sg|)
    && (y.gone > 0 && y.alive ==> y.mtx.Some?)
    && (y.dying || y.mtx.Some? ==> y.lru)
    && (forall u: Task :: u != t ==> (y.mtx == Some(u) <==> x.mtx == Some(u)))
  }

  lemma FlagFolio(s: State, s': State, t: Task, a: AbdId, f: FolioId)
    requires CountOk(s, f) && HomeOk(s, f) && HomelessOk(s, f) && FlagStep(s, s', t, a)
    ensures CountOk(s', f) && HomelessOk(s', f) && HomeOk(s', f)
  {
    HolderSame(s, s', t, f);
    assert Fo(s', f) == Fo(s, f);
    if Fo(s, f).home.Some? {
      var m := Ab(s, Fo(s, f).home.value.abd).mtx;
      if m.Some? && m.value != t { assert Ab(s', Fo(s, f).home.value.abd).mtx == m; }
    }
  }

  lemma FlagEntries(s: State, s': State, t: Task, a: AbdId)
    requires EntriesOk(s) && FlagStep(s, s', t, a)
    ensures EntriesOk(s')
  {
    forall b: AbdId, i: nat ensures EntryOk(s', b, i) { assert EntryOk(s, b, i); }
    forall b: AbdId, k: nat, i: nat ensures Apart(s', b, k, i) { assert Apart(s, b, k, i); }
  }

  lemma FlagTies(s: State, s': State, t: Task, a: AbdId)
    requires TiesOk(s) && FlagStep(s, s', t, a)
    requires forall f: FolioId :: SameHeld(At(s, t), At(s', t), f, Fo(s, f).home)
    requires forall b: AbdId :: MtxTie(s', t, b)
    requires forall u: Task, v: Task, b: AbdId :: Alone(s', u, v, b)
    ensures TiesOk(s')
  {
    forall u: Task, f: FolioId ensures LockTie(s', u, f) && RefTie(s', u, f) {
      assert LockTie(s, u, f) && RefTie(s, u, f);
      assert SameHeld(At(s, t), At(s', t), f, Fo(s, f).home);
    }
    forall u: Task, b: AbdId ensures MtxTie(s', u, b) { assert MtxTie(s, u, b); }
  }

  lemma FlagKeeps(s: State, s': State, t: Task, a: AbdId)
    requires Inv(s) && FlagStep(s, s', t, a)
    requires forall f: FolioId :: SameHeld(At(s, t), At(s', t), f, Fo(s, f).home)
    requires forall b: AbdId :: MtxTie(s', t, b)
    requires forall u: Task, v: Task, b: AbdId :: Alone(s', u, v, b)
    requires forall u: Task :: u != t ==> Kept(s, s', At(s, u))
    requires PcOk(s', t)
    ensures Inv(s')
  {
    forall f: FolioId ensures CountOk(s', f) && HomeOk(s', f) && HomelessOk(s', f) {
      assert CountOk(s, f) && HomeOk(s, f) && HomelessOk(s, f);
      FlagFolio(s, s', t, a, f);
    }
    FlagEntries(s, s', t, a);
    FlagTies(s, s', t, a);
    forall u: Task ensures PcOk(s', u) {
      assert PcOk(s, u);
      if u != t { PcFrame(s, s', u); }
    }
  }

  /** What a change of flags asks of a task that uses the buffer. */
  predicate FlagsKept(x: Abd, y: Abd, pc: Pc, a: AbdId) {
    match pc
    case Building(b) => b == a ==> AbdKept(x, y) && y.mtx == x.mtx
    case Grab(w, b, _, _, _) => b == a ==> GrabKept(x, y, w)
    case Join(b, _, _, _) => b == a ==> GrabKept(x, y, Claimer(None))
    case Free(b, _, _, _) => b == a ==> GrabKept(x, y, Freer)
    case Drop(_, b, _, _, _) => b == a ==> AbdKept(x, y)
    case Claim(rf, b, _, _, k) => b == a ==> GrabKept(x, y, if k.Evicting? then Freer else Claimer(rf))
    case _ => true
  }

  lemma FlagKeptHolder(s: State, s': State, t: Task, a: AbdId, u: Task)
    requires FlagStep(s, s', t, a) && u != t && FlagsKept(Ab(s, a), Ab(s', a), At(s, u), a)
    requires At(s, u).Reading? || At(s, u).Drop?
    ensures Kept(s, s', At(s, u))
  {
    HolderSame(s, s', t, At(s, u).p);
  }

  lemma FlagKeptJoin(s: State, s': State, t: Task, a: AbdId, u: Task)
    requires FlagStep(s, s', t, a) && u != t && FlagsKept(Ab(s, a), Ab(s', a), At(s, u), a)
    requires At(s, u).Join?
    ensures Kept(s, s', At(s, u))
  {
    HolderSame(s, s', t, At(s, u).p);
    assert Ab(s', At(s, u).a).sg == Ab(s, At(s, u).a).sg;
  }

  lemma FlagKeptStands(s: State, s': State, t: Task, a: AbdId, u: Task)
    requires FlagStep(s, s', t, a) && u != t && FlagsKept(Ab(s, a), Ab(s', a), At(s, u), a)
    requires At(s, u).Free? || At(s, u).Claim?
    ensures Kept(s, s', At(s, u))
  {
    HolderSame(s, s', t, At(s, u).p);
  }

  lemma FlagKeptRest(s: State, s': State, t: Task, a: AbdId, u: Task)
    requires FlagStep(s, s', t, a) && u != t && FlagsKept(Ab(s, a), Ab(s', a), At(s, u), a)
    requires !At(s, u).Reading? && !At(s, u).Drop? && !At(s, u).Join? && !At(s, u).Free? && !At(s, u).Claim?
    ensures Kept(s, s', At(s, u))
  {
  }

  lemma FlagKept(s: State, s': State, t: Task, a: AbdId, u: Task)
    requires FlagStep(s, s', t, a) && u != t && FlagsKept(Ab(s, a), Ab(s', a), At(s, u), a)
    ensures Kept(s, s', At(s, u))
  {
    if At(s, u).Reading? || At(s, u).Drop? {
      FlagKeptHolder(s, s', t, a, u);
    } else if At(s, u).Join? {
      FlagKeptJoin(s, s', t, a, u);
    } else if At(s, u).Free? || At(s, u).Claim? {
      FlagKeptStands(s, s', t, a, u);
    } else {
      FlagKeptRest(s, s', t, a, u);
    }
  }

  /** Taking or dropping abd_mtx of a published buffer: no other task notices. */
  lemma MtxStep(s: State, t: Task, a: AbdId, b: Abd, pc1: Pc)
    requires Inv(s) && Plain(At(s, t)) && Plain(pc1) && NoNewRole(At(s, t), pc1)
    requires Ab(s, a).built && Ab(s, a).gone == 0 &&
             (b == Ab(s, a).(mtx := b.mtx) || b == Ab(s, a).(mtx := b.mtx, lru := true))
    requires (Ab(s, a).mtx.None? && b.mtx == Some(t) && MtxOf(At(s, t)).None? && MtxOf(pc1) == Some(a)) ||
             (MtxOf(At(s, t)) == Some(a) && b.mtx.None? && MtxOf(pc1).None?)
    requires b.mtx.Some? ==> b.lru
    requires forall f: FolioId :: SameHeld(At(s, t), pc1, f, Fo(s, f).home)
    requires PcOk(Go(SetA(s, a, b), t, pc1), t)
    ensures Inv(Go(SetA(s, a, b), t, pc1))
  {
    var s' := Go(SetA(s, a, b), t, pc1);
    assert MtxTie(s, t, a) && EntryOk(s, a, 0);
    assert FlagStep(s, s', t, a);
    forall c: AbdId ensures MtxTie(s', t, c) { assert MtxTie(s, t, c); }
    forall u: Task, v: Task, c: AbdId ensures Alone(s', u, v, c) { assert Alone(s, u, v, c); }
    forall u: Task | u != t ensures Kept(s, s', At(s, u)) {
      assert PcOk(s, u);
      FlagKept(s, s', t, a, u);
    }
    FlagKeeps(s, s', t, a);
  }

  lemma KeepJoinStart(s: State, t: Task, a: AbdId)
    requires Inv(s) && Can(s, t, JoinStart(a), true)
    ensures Inv(Go(SetA(s, a, Ab(s, a).(lru := true, mtx := Some(t))), t, Join(a, 0, 0, NextJoin)))
  {
    forall j: nat | j < |Ab(s, a).sg| ensures Fo(s, Ab(s, a).sg[j]).priv.Marker? { assert EntryOk(s, a, j); }
    assert EntryOk(s, a, 0);
    MtxStep(s, t, a, Ab(s, a).(lru := true, mtx := Some(t)), Join(a, 0, 0, NextJoin));
  }

  lemma KeepJoinEnd(s: State, t: Task)
    requires Inv(s) && JoinIs(At(s, t), NextJoin) && At(s, t).i == |Ab(s, At(s, t).a).sg|
    ensures Inv(Go(SetA(s, At(s, t).a, Ab(s, At(s, t).a).(mtx := None)), t, Idle))
  {
    assert PcOk(s, t);
    MtxStep(s, t, At(s, t).a, Ab(s, At(s, t).a).(mtx := None), Idle);
  }

  lemma KeepFreeEnter(s: State, t: Task)
    requires Inv(s) && FreeIs(At(s, t), Waiting) && Ab(s, At(s, t).a).mtx.None?
    ensures Inv(Go(SetA(s, At(s, t).a, Ab(s, At(s, t).a).(mtx := Some(t))), t, Free(At(s, t).a, 0, 0, NextFree)))
  {
    assert PcOk(s, t) && EntryOk(s, At(s, t).a, 0);
    MtxStep(s, t, At(s, t).a, Ab(s, At(s, t).a).(mtx := Some(t)), Free(At(s, t).a, 0, 0, NextFree));
  }

  lemma KeepRcEnter(s: State, t: Task)
    requires Inv(s) && ReclaimIs(At(s, t), Counted)
    ensures Inv(DoRcEnter(s, t, At(s, t)))
  {
    var pc := At(s, t);
    assert PcOk(s, t) && HomeOk(s, pc.p);
    if Ab(s, pc.a).mtx.None? {
      assert EntryOk(s, pc.a, 0);
      MtxStep(s, t, pc.a, Ab(s, pc.a).(mtx := Some(t)), Claim(Some(pc.p), pc.a, 0, 0, Sweep));
    } else {
      NoFolio(s, t, pc.(c := Refused));
    }
  }

  lemma KeepPrelockStart(s: State, t: Task, a: AbdId)
    requires Inv(s) && Can(s, t, PrelockStart(a), true)
    ensures Inv(Go(SetA(s, a, Ab(s, a).(mtx := Some(t))), t, Claim(None, a, 0, 0, Sweep)))
  {
    assert EntryOk(s, a, 0);
    MtxStep(s, t, a, Ab(s, a).(mtx := Some(t)), Claim(None, a, 0, 0, Sweep));
  }

  lemma KeepUndoEnd(s: State, t: Task)
    requires Inv(s) && At(s, t).Claim? && At(s, t).k.Undo? && At(s, t).k.lo == At(s, t).i
    ensures Inv(Go(SetA(s, At(s, t).a, Ab(s, At(s, t).a).(mtx := None)), t, Answer(At(s, t).rf, At(s, t).a, Refused)))
  {
    assert PcOk(s, t);
    MtxStep(s, t, At(s, t).a, Ab(s, At(s, t).a).(mtx := None), Answer(At(s, t).rf, At(s, t).a, Refused));
  }

  /** Nobody frees a buffer nobody has decided to free. */
  lemma NobodyGivesUp(s: State, a: AbdId, u: Task)
    requires Inv(s) && !Ab(s, a).dying
    ensures !GivesUp(At(s, u), a)
  {
    assert PcOk(s, u);
  }

  /** The decision to free: no reader walks the entries, and no one else has taken it. */
  lemma DyingStep(s: State, t: Task, a: AbdId, pc1: Pc)
    requires Inv(s) && Plain(At(s, t)) && Plain(pc1) && GivesUp(pc1, a)
    requires InUse(Ab(s, a)) && Ab(s, a).lru && NobodyWalks(s, a) && MtxOf(pc1) == MtxOf(At(s, t)) && Ab(s, a).gone == 0
    requires forall b: AbdId :: !Builds(pc1, b) && (GivesUp(pc1, b) ==> b == a)
    requires forall f: FolioId :: SameHeld(At(s, t), pc1, f, Fo(s, f).home)
    requires PcOk(Go(SetA(s, a, Ab(s, a).(dying := true)), t, pc1), t)
    ensures Inv(Go(SetA(s, a, Ab(s, a).(dying := true)), t, pc1))
  {
    var s' := Go(SetA(s, a, Ab(s, a).(dying := true)), t, pc1);
    assert FlagStep(s, s', t, a);
    forall c: AbdId ensures MtxTie(s', t, c) { assert MtxTie(s, t, c); }
    forall u: Task, v: Task, c: AbdId ensures Alone(s', u, v, c) {
      assert Alone(s, u, v, c);
      NobodyGivesUp(s, a, u);
      NobodyGivesUp(s, a, v);
      assert GivesUp(pc1, c) ==> c == a;
      assert !Builds(pc1, c);
    }
    forall u: Task | u != t ensures Kept(s, s', At(s, u)) {
      assert PcOk(s, u) && !Walks(At(s, u), a);
      NobodyGivesUp(s, a, u);
      FlagKept(s, s', t, a, u);
    }
    FlagKeeps(s, s', t, a);
  }

  lemma KeepFreeStart(s: State, t: Task, a: AbdId)
    requires Inv(s) && Can(s, t, FreeStart(a), true)
    ensures Inv(Go(SetA(s, a, Ab(s, a).(dying := true)), t, Free(a, 0, 0, Waiting)))
  {
    assert EntryOk(s, a, 0);
    DyingStep(s, t, a, Free(a, 0, 0, Waiting));
  }

  lemma KeepEvict(s: State, t: Task)
    requires Inv(s) && ClaimIs(At(s, t), Sweep) && At(s, t).i == |Ab(s, At(s, t).a).sg|
    requires !Ab(s, At(s, t).a).dying && NobodyWalks(s, At(s, t).a)
    ensures Inv(Go(SetA(s, At(s, t).a, Ab(s, At(s, t).a).(dying := true)), t, At(s, t).(i := 0, k := Evicting)))
  {
    var pc := At(s, t);
    var pc1 := pc.(i := 0, k := Evicting);
    assert PcOk(s, t) && MtxTie(s, t, pc.a) && EntryOk(s, pc.a, 0);
    forall f: FolioId ensures SameHeld(pc, pc1, f, Fo(s, f).home) { assert HomeOk(s, f); }
    if pc.rf.Some? { assert HomeOk(s, pc.rf.value); }
    DyingStep(s, t, pc.a, pc1);
  }

  /** Every entry has been given back: the buffer's memory goes. */
  lemma LastStep(s: State, t: Task, pc1: Pc)
    requires Inv(s) && Plain(At(s, t)) && Plain(pc1) && MtxOf(pc1).None?
    requires FreeIs(At(s, t), NextFree) || ClaimIs(At(s, t), Evicting)
    requires Ab(s, At(s, t).a).alive && Ab(s, At(s, t).a).built && Ab(s, At(s, t).a).dying
    requires Ab(s, At(s, t).a).gone == |Ab(s, At(s, t).a).sg|
    requires NoNewRole(At(s, t), pc1)
    requires forall f: FolioId :: SameHeld(At(s, t), pc1, f, Fo(s, f).home)
    requires PcOk(Go(SetA(s, At(s, t).a, Ab(s, At(s, t).a).(mtx := None, alive := false)), t, pc1), t)
    ensures Inv(Go(SetA(s, At(s, t).a, Ab(s, At(s, t).a).(mtx := None, alive := false)), t, pc1))
  {
    var a := At(s, t).a;
    var s' := Go(SetA(s, a, Ab(s, a).(mtx := None, alive := false)), t, pc1);
    assert MtxTie(s, t, a) && EntryOk(s, a, 0);
    assert FlagStep(s, s', t, a);
    forall c: AbdId ensures MtxTie(s', t, c) { assert MtxTie(s, t, c); }
    forall u: Task, v: Task, c: AbdId ensures Alone(s', u, v, c) { assert Alone(s, u, v, c); }
    forall u: Task | u != t ensures Kept(s, s', At(s, u)) {
      assert PcOk(s, u) && MtxTie(s, u, a) && Alone(s, u, t, a);
      FlagKept(s, s', t, a, u);
    }
    FlagKeeps(s, s', t, a);
  }

  lemma KeepFreeEnd(s: State, t: Task)
    requires Inv(s) && FreeIs(At(s, t), NextFree) && At(s, t).i == |Ab(s, At(s, t).a).sg|
    ensures Inv(Go(SetA(s, At(s, t).a, Ab(s, At(s, t).a).(mtx := None, alive := false)), t, Idle))
  {
    assert PcOk(s, t);
    LastStep(s, t, Idle);
  }

  lemma KeepEvictEnd(s: State, t: Task)
    requires Inv(s) && ClaimIs(At(s, t), Evicting) && At(s, t).i == |Ab(s, At(s, t).a).sg|
    ensures Inv(Go(SetA(s, At(s, t).a, Ab(s, At(s, t).a).(mtx := None, alive := false)), t,
                   Answer(At(s, t).rf, At(s, t).a, Released)))
  {
    var pc := At(s, t);
    var pc1 := Answer(pc.rf, pc.a, Released);
    assert PcOk(s, t);
    forall f: FolioId ensures SameHeld(pc, pc1, f, Fo(s, f).home) { assert HomeOk(s, f); }
    if pc.rf.Some? { assert HomeOk(s, pc.rf.value); }
    LastStep(s, t, pc1);
  }

  lemma KeepNewAbd(s: State, t: Task, a: AbdId)
    requires Inv(s) && Can(s, t, NewAbd(a), true)
    ensures Inv(Go(SetA(s, a, Abd(true, false, false, false, [], [], 0, None)), t, Building(a)))
  {
    var s' := Go(SetA(s, a, Abd(true, false, false, false, [], [], 0, None)), t, Building(a));
    assert FlagStep(s, s', t, a);
    forall c: AbdId ensures MtxTie(s', t, c) { assert MtxTie(s, t, c); }
    forall u: Task, v: Task, c: AbdId ensures Alone(s', u, v, c) {
      assert Alone(s, u, v, c) && PcOk(s, u) && PcOk(s, v);
    }
    forall u: Task | u != t ensures Kept(s, s', At(s, u)) {
      assert PcOk(s, u);
      FlagKept(s, s', t, a, u);
    }
    FlagKeeps(s, s', t, a);
  }

  lemma KeepPublish(s: State, t: Task)
    requires Inv(s) && At(s, t).Building?
    ensures Inv(Go(SetA(s, At(s, t).a, Ab(s, At(s, t).a).(built := true)), t, Idle))
  {
    var a := At(s, t).a;
    var s' := Go(SetA(s, a, Ab(s, a).(built := true)), t, Idle);
    assert PcOk(s, t);
    assert FlagStep(s, s', t, a);
    forall c: AbdId ensures MtxTie(s', t, c) { assert MtxTie(s, t, c); }
    forall u: Task, v: Task, c: AbdId ensures Alone(s', u, v, c) { assert Alone(s, u, v, c); }
    forall u: Task | u != t ensures Kept(s, s', At(s, u)) {
      assert PcOk(s, u) && Alone(s, t, u, a);
      FlagKept(s, s', t, a, u);
    }
    FlagKeeps(s, s', t, a);
  }
}
