module FolioTheorems {
  /** What the invariant means: counts, readers' bytes, live buffers and what each task is left holding. */
  import opened Basics
  import opened FolioMachine
  import opened FolioInvariant
  import opened FolioFrames
  import opened FolioLight
  import opened FolioFresh
  import opened FolioRuns

  /** Reached by a run in which no migration takes a page that an entry of the same buffer names. */
  ghost predicate Reachable(s: State) { Reached(s, true) }

  lemma ReachableInv(s: State)
    requires Reachable(s)
    ensures Inv(s)
  {
    ReachedByRun(s, true);
    var run :| Legal(INIT, run, true) && Run(INIT, run) == s;
    RunKeeps(run);
  }

  // ----- reference counts -----

  /** The count is the allocation's reference, one for the private word, one per page in the mapping, and
      one per grab; only a migration that found exactly its own may hold it at zero instead. */
  lemma CountsAlways(s: State, f: FolioId)
    requires Reachable(s)
    ensures var x := Fo(s, f);
            if x.frozen then
              x.count == 0 && InFreeze(Holder(s, f), f) && |x.grabs| == 1 && !x.alloc
            else
              x.count == One(x.alloc) + One(!x.priv.NoPriv?) + (if x.mapped then x.nr else 0) + |x.grabs|
  {
    ReachableInv(s);
    assert CountOk(s, f);
    if Fo(s, f).frozen { assert PcOk(s, Fo(s, f).lock.value); }
  }

  /** A page goes back to the allocator exactly when the protocol has dropped its whole share and
      no task holds it: never earlier, and then nothing names it as its own. */
  lemma FreeIffLetGo(s: State, f: FolioId)
    requires Reachable(s)
    ensures var x := Fo(s, f);
            IsFree(x) <==> !x.frozen && !x.alloc && x.priv.NoPriv? && !x.mapped && x.grabs == multiset{}
    ensures IsFree(Fo(s, f)) ==> Fo(s, f).home.None?
  {
    ReachableInv(s);
    assert CountOk(s, f) && HomeOk(s, f);
    if IsFree(Fo(s, f)) { FreeBare(s, f); }
  }

  /** Nothing of a freed buffer is left: no folio stands for one of its chunks or carries its address. */
  lemma DeadLeavesNothing(s: State, a: AbdId, f: FolioId)
    requires Reachable(s) && !Ab(s, a).alive
    ensures Fo(s, f).priv != Names(a)
    ensures Fo(s, f).home.Some? ==> Fo(s, f).home.value.abd != a
    ensures forall t: Task :: Ab(s, a).mtx != Some(t)
  {
    ReachableInv(s);
    assert HomeOk(s, f) && HomelessOk(s, f);
    if Fo(s, f).lock.Some? {
      var u := Fo(s, f).lock.value;
      assert PcOk(s, u);
      if At(s, u).Move? { assert HomeOk(s, At(s, u).src); }
    }
    forall t: Task ensures Ab(s, a).mtx != Some(t) { assert MtxTie(s, t, a) && PcOk(s, t); }
  }

  /** While the last reference of a dropped chunk is pending, it is the dropping task's or a passer-by's:
      the protocol's own share has reached zero. */
  lemma ShareDropped(s: State, t: Task)
    requires Reachable(s) && At(s, t).Drop? && At(s, t).d.LastPut?
    ensures Share(Fo(s, At(s, t).p)) == 0 && Fo(s, At(s, t).p).count == |Fo(s, At(s, t).p).grabs|
    ensures Fo(s, At(s, t).p).grabs[t] >= 1
  {
    ReachableInv(s);
    var p := At(s, t).p;
    assert PcOk(s, t) && CountOk(s, p) && RefTie(s, t, p);
    HeldNotFrozen(s, t, p);
  }

  // ----- live buffers and their entries -----

  ghost predicate NamedOnce(sg: seq<FolioId>, f: FolioId) {
    exists i :: 0 <= i < |sg| && sg[i] == f && forall j :: 0 <= j < |sg| && sg[j] == f ==> j == i
  }

  /** A folio whose private word names a buffer: the buffer is alive, and one entry names the folio.
      The folio a migration is filling has the private word just before the entry follows. */
  lemma NamedBufferLives(s: State, f: FolioId)
    requires Reachable(s) && Fo(s, f).priv.Names?
    ensures Ab(s, Fo(s, f).priv.abd).alive
    ensures if MoveIs(Holder(s, f), Moved) && Holder(s, f).dst == f then f !in Ab(s, Fo(s, f).priv.abd).sg
            else NamedOnce(Ab(s, Fo(s, f).priv.abd).sg, f)
  {
    ReachableInv(s);
    assert HomeOk(s, f) && HomelessOk(s, f);
    if Fo(s, f).lock.Some? {
      var u := Fo(s, f).lock.value;
      assert PcOk(s, u);
      if At(s, u).Move? { assert HomeOk(s, At(s, u).src); }
    }
    if Fo(s, f).home.Some? {
      var a := Fo(s, f).priv.abd;
      var i := Fo(s, f).home.value.idx;
      forall j | 0 <= j < |Ab(s, a).sg| && Ab(s, a).sg[j] == f ensures j == i {
        assert EntryOk(s, a, j) && Apart(s, a, j, i);
      }
    }
  }

  /** No entry of a live buffer that is not given back yet names a page the allocator has. */
  lemma LiveEntryHeld(s: State, a: AbdId, i: nat)
    requires Reachable(s) && Ab(s, a).alive && Ab(s, a).gone <= i < |Ab(s, a).sg|
    ensures !IsFree(Fo(s, Ab(s, a).sg[i]))
  {
    ReachableInv(s);
    assert EntryOk(s, a, i);
    if IsFree(Fo(s, Ab(s, a).sg[i])) { FreeIffLetGo(s, Ab(s, a).sg[i]); }
  }

  /** VERIFY(found) in abd_lru_migrate_folio. */
  lemma VerifyHolds(s: State, t: Task)
    requires Reachable(s)
    ensures At(s, t) != VerifyFailed
  {
    ReachableInv(s);
    assert PcOk(s, t);
  }

  // ----- what a task is left holding -----

  /** Between protocol calls a task holds nothing at all. */
  lemma IdleHoldsNothing(s: State, t: Task, f: FolioId, a: AbdId)
    requires Reachable(s) && At(s, t).Idle?
    ensures Fo(s, f).lock != Some(t) && Fo(s, f).grabs[t] == 0 && Ab(s, a).mtx != Some(t)
  {
    ReachableInv(s);
    assert LockTie(s, t, f) && RefTie(s, t, f) && MtxTie(s, t, a);
  }

  /** abd_lru_release_folio returns with the one lock and the one reference it was entered with. If it
      succeeded the folio has left its buffer; if it failed, the folio is still one of its buffer's chunks. */
  lemma ReclaimReturns(s: State, t: Task, f: FolioId, a: AbdId)
    requires Reachable(s) && At(s, t).Reclaim?
    ensures Fo(s, f).lock == Some(t) <==> f == At(s, t).p
    ensures Fo(s, f).grabs[t] == (if f == At(s, t).p then 1 else 0)
    ensures Ab(s, a).mtx != Some(t)
    ensures At(s, t).c.Refused? ==>
              var x := Fo(s, At(s, t).p);
              && x.mapped && x.priv == Names(At(s, t).a) && Ab(s, At(s, t).a).alive
              && x.home.Some? && x.home.value.abd == At(s, t).a && x.home.value.idx < |Ab(s, At(s, t).a).sg|
              && Ab(s, At(s, t).a).sg[x.home.value.idx] == At(s, t).p
    ensures At(s, t).c.Released? ==>
              var x := Fo(s, At(s, t).p);
              x.mapped && x.priv.NoPriv? && x.home.None?
  {
    ReachableInv(s);
    assert LockTie(s, t, f) && RefTie(s, t, f) && MtxTie(s, t, a) && PcOk(s, t) && HomeOk(s, At(s, t).p);
  }

  // ----- readers -----

  /** A reader sees the bytes it asked for. */
  lemma ReaderBytes(s: State, t: Task)
    requires Reachable(s) && At(s, t).Reading?
    ensures Fo(s, At(s, t).p).bytes == At(s, t).want
    ensures Fo(s, At(s, t).p).grabs[t] == 1 && !IsFree(Fo(s, At(s, t).p))
  {
    ReachableInv(s);
    assert PcOk(s, t) && CountOk(s, At(s, t).p) && RefTie(s, t, At(s, t).p);
    OneHolder(Fo(s, At(s, t).p).grabs, t);
  }

  /** What abd_sg_grab hands to a reader are the bytes of the buffer it walks, as they were written. */
  lemma GrabbedBytes(s: State, t: Task)
    requires Reachable(s) && GrabIs(At(s, t), Checks) && At(s, t).w.Reader? && Can(s, t, GrabTest, true)
    requires Ab(s, At(s, t).a).sg[At(s, t).i] == At(s, t).p
    ensures At(Do(s, t, GrabTest), t) == Reading(At(s, t).p, Ab(s, At(s, t).a).data[At(s, t).i])
    ensures Fo(s, At(s, t).p).bytes == Ab(s, At(s, t).a).data[At(s, t).i]
  {
    var pc := At(s, t);
    ReachableInv(s);
    assert PcOk(s, t) && EntryOk(s, pc.a, pc.i);
  }

  predicate Without(run: seq<Step>, t: Task) { forall k :: 0 <= k < |run| ==> run[k].task != t }

  lemma DropOfOther(s: State, u: Task, t: Task)
    requires u != t && At(s, u).Drop?
    ensures At(DoDrop(s, u, At(s, u)), t) == At(s, t)
  {
  }

  lemma MoveOfOther(s: State, u: Task, t: Task)
    requires u != t && At(s, u).Move?
    ensures At(DoMgStep(s, u, At(s, u)), t) == At(s, t)
  {
  }

  lemma JoinOfOther(s: State, u: Task, act: Action, t: Task)
    requires u != t && JoinAction(act)
    ensures At(Do(s, u, act), t) == At(s, t)
  {
  }

  lemma GrabOfOther(s: State, u: Task, act: Action, t: Task)
    requires u != t && GrabAction(act)
    ensures At(Do(s, u, act), t) == At(s, t)
  {
  }

  lemma FreeOfOther(s: State, u: Task, act: Action, t: Task)
    requires u != t && FreeAction(act)
    ensures At(Do(s, u, act), t) == At(s, t)
  {
    if act.DropStep? {
      if At(s, u).Drop? { DropOfOther(s, u, t); }
    }
  }

  lemma MigrateOfOther(s: State, u: Task, act: Action, t: Task)
    requires u != t && MoveAction(act)
    ensures At(Do(s, u, act), t) == At(s, t)
  {
    if act.MgStep? {
      if At(s, u).Move? { MoveOfOther(s, u, t); }
    }
  }

  lemma SweepOfOther(s: State, u: Task, act: Action, t: Task)
    requires u != t && (act.ClaimTry? || act.ClaimTest?)
    ensures At(Do(s, u, act), t) == At(s, t)
  {
  }

  lemma ClaimOfOther(s: State, u: Task, act: Action, t: Task)
    requires u != t && ClaimAction(act)
    ensures At(Do(s, u, act), t) == At(s, t)
  {
    if act.ClaimTry? || act.ClaimTest? { SweepOfOther(s, u, act, t); }
  }

  lemma ReclaimOfOther(s: State, u: Task, act: Action, t: Task)
    requires u != t && ReclaimAction(act)
    ensures At(Do(s, u, act), t) == At(s, t)
  {
    if act.RcStart? || act.RcCount? || act.RcEnter? || act.RcRemove? { EnterOfOther(s, u, act, t); }
  }

  lemma EnterOfOther(s: State, u: Task, act: Action, t: Task)
    requires u != t && (act.RcStart? || act.RcCount? || act.RcEnter? || act.RcRemove?)
    ensures At(Do(s, u, act), t) == At(s, t)
  {
  }

  /** A task moves only by its own steps. */
  lemma StepOfOther(s: State, u: Task, act: Action, t: Task)
    requires u != t
    ensures At(Do(s, u, act), t) == At(s, t)
  {
    if JoinAction(act) {
      JoinOfOther(s, u, act, t);
    } else if GrabAction(act) {
      GrabOfOther(s, u, act, t);
    } else if FreeAction(act) {
      FreeOfOther(s, u, act, t);
    } else if MoveAction(act) {
      MigrateOfOther(s, u, act, t);
    } else if ClaimAction(act) {
      ClaimOfOther(s, u, act, t);
    } else {
      ReclaimOfOther(s, u, act, t);
    }
  }

  lemma LegalStart(run: seq<Step>, step: Step)
    requires Legal(INIT, run + [step], true)
    ensures Legal(INIT, run, true) && Run(INIT, run + [step]) == Do(Run(INIT, run), step.task, step.act)
  {
    assert (run + [step])[..|run|] == run;
  }

  lemma RunReader(run: seq<Step>, t: Task)
    requires Legal(INIT, run, true) && At(Run(INIT, run), t).Reading?
    ensures Fo(Run(INIT, run), At(Run(INIT, run), t).p).bytes == At(Run(INIT, run), t).want
  {
    ReachedIff(Run(INIT, run), true);
    ReaderBytes(Run(INIT, run), t);
  }

  /** For as long as it keeps the reference, and whatever the others do meanwhile, any number of
      migrations, reclaims and frees included, a reader sees the same bytes. */
  lemma {:induction false} ReaderSteady(run: seq<Step>, more: seq<Step>, t: Task)
    requires Legal(INIT, run + more, true) && Without(more, t) && At(Run(INIT, run), t).Reading?
    ensures At(Run(INIT, run + more), t) == At(Run(INIT, run), t)
    ensures Fo(Run(INIT, run + more), At(Run(INIT, run), t).p).bytes == At(Run(INIT, run), t).want
    decreases |more|
  {
    if more == [] {
      assert run + more == run;
    } else {
      var n := |more| - 1;
      assert run + more == (run + more[..n]) + [more[n]];
      LegalStart(run + more[..n], more[n]);
      ReaderSteady(run, more[..n], t);
      StepOfOther(Run(INIT, run + more[..n]), more[n].task, more[n].act, t);
    }
    RunReader(run + more, t);
  }
}
