module FolioRuns {
  /** Every step keeps the invariant, so every reachable state satisfies it. */
  import opened Basics
  import opened FolioMachine
  import opened FolioInvariant
  import opened FolioLight
  import opened FolioFlags
  import opened FolioHeavy
  import opened FolioDrop
  import opened FolioGive
  import opened FolioFresh
  import opened FolioMove
  import opened FolioRepoint

  predicate GrabAction(act: Action) {
    act.Look? || act.ReadDone? || act.GrabRead? || act.GrabGet? || act.GrabTest? || act.SpecGet? ||
    act.SpecPut? || act.SpecLock? || act.SpecUnlock?
  }

  predicate JoinAction(act: Action) {
    act.NewAbd? || act.AddChunk? || act.Publish? || act.JoinStart? || act.JoinMark? || act.JoinAdd? ||
    act.JoinUnlock? || act.JoinPut? || act.JoinEnd?
  }

  predicate FreeAction(act: Action) {
    act.FreeStart? || act.FreeEnter? || act.FreeNext? || act.FreeLock? || act.FreeTest? || act.FreeEnd? || act.DropStep?
  }

  predicate ReclaimAction(act: Action) {
    act.RcStart? || act.RcCount? || act.RcEnter? || act.RcRemove? || act.RcPutBack? || act.PrelockStart? ||
    act.Evict? || act.EvictNext? || act.EvictEnd?
  }

  predicate ClaimAction(act: Action) {
    act.ClaimNext? || act.ClaimTry? || act.ClaimTest? || act.ClaimRefuse? || act.UndoStep? || act.UndoEnd?
  }

  predicate MoveAction(act: Action) {
    act.MgStart? || act.MgAlloc? || act.MgStep?
  }

  lemma GrabKeeps(s: State, t: Task, act: Action)
    requires Inv(s) && Can(s, t, act, true)
    requires GrabAction(act)
    ensures Inv(Do(s, t, act))
  {
    match act
    case Look(a, i) => KeepLook(s, t, a, i);
    case ReadDone => KeepReadDone(s, t);
    case GrabRead => KeepGrabRead(s, t);
    case GrabGet => KeepGrabGet(s, t);
    case GrabTest => KeepGrabTest(s, t);
    case SpecGet(f) => KeepSpecGet(s, t, f);
    case SpecPut => KeepSpecPut(s, t);
    case SpecLock => KeepSpecLock(s, t);
    case SpecUnlock => KeepSpecUnlock(s, t);
  }

  lemma JoinKeeps(s: State, t: Task, act: Action)
    requires Inv(s) && Can(s, t, act, true)
    requires JoinAction(act)
    ensures Inv(Do(s, t, act))
  {
    match act
    case NewAbd(a) => KeepNewAbd(s, t, a);
    case AddChunk(f, nr, b) => KeepAddChunk(s, t, f, nr, b);
    case Publish => KeepPublish(s, t);
    case JoinStart(a) => KeepJoinStart(s, t, a);
    case JoinMark => KeepJoinMark(s, t);
    case JoinAdd(ok) => KeepJoinAdd(s, t, ok);
    case JoinUnlock => KeepJoinUnlock(s, t);
    case JoinPut => KeepJoinPut(s, t);
    case JoinEnd => KeepJoinEnd(s, t);
  }

  lemma DropKeeps(s: State, t: Task)
    requires Inv(s) && At(s, t).Drop?
    ensures Inv(DoDrop(s, t, At(s, t)))
  {
    match At(s, t).d
    case Mine => if Fo(s, At(s, t).p).mapped { KeepDropUnmap(s, t); } else { KeepDropUnlock(s, t); }
    case Removed => KeepDropDetach(s, t);
    case Unlocked => KeepDropUnmark(s, t);
    case Unmarked => KeepDropPut(s, t);
    case LastPut => KeepDropLast(s, t);
  }

  lemma FreeKeeps(s: State, t: Task, act: Action)
    requires Inv(s) && Can(s, t, act, true)
    requires FreeAction(act)
    ensures Inv(Do(s, t, act))
  {
    match act
    case FreeStart(a) => KeepFreeStart(s, t, a);
    case FreeEnter => KeepFreeEnter(s, t);
    case FreeNext => KeepFreeNext(s, t);
    case FreeLock => KeepFreeLock(s, t);
    case FreeTest => KeepFreeTest(s, t);
    case FreeEnd => KeepFreeEnd(s, t);
    case DropStep => DropKeeps(s, t);
  }

  lemma ClaimTryKeeps(s: State, t: Task)
    requires Inv(s) && ClaimIs(At(s, t), Have)
    ensures Inv(DoClaimTry(s, t, At(s, t)))
  {
    if At(s, t).rf == Some(At(s, t).p) {
      KeepClaimSelf(s, t);
    } else if Fo(s, At(s, t).p).lock.None? {
      KeepClaimLock(s, t);
    } else {
      KeepClaimBusy(s, t);
    }
  }

  lemma EvictNextKeeps(s: State, t: Task)
    requires Inv(s) && ClaimIs(At(s, t), Evicting) && At(s, t).i < |Ab(s, At(s, t).a).sg|
    ensures Inv(DoEvictNext(s, t, At(s, t)))
  {
    if At(s, t).rf == Some(Ab(s, At(s, t).a).sg[At(s, t).i]) { KeepEvictSelf(s, t); } else { KeepEvictOther(s, t); }
  }

  lemma ReclaimKeeps(s: State, t: Task, act: Action)
    requires Inv(s) && Can(s, t, act, true)
    requires ReclaimAction(act)
    ensures Inv(Do(s, t, act))
  {
    match act
    case RcStart => KeepRcStart(s, t);
    case RcCount => KeepRcCount(s, t);
    case RcEnter => KeepRcEnter(s, t);
    case RcRemove => KeepRcRemove(s, t);
    case RcPutBack => KeepRcPutBack(s, t);
    case PrelockStart(a) => KeepPrelockStart(s, t, a);
    case Evict => KeepEvict(s, t);
    case EvictNext => EvictNextKeeps(s, t);
    case EvictEnd => KeepEvictEnd(s, t);
  }

  lemma ClaimKeeps(s: State, t: Task, act: Action)
    requires Inv(s) && Can(s, t, act, true)
    requires ClaimAction(act)
    ensures Inv(Do(s, t, act))
  {
    match act
    case ClaimNext => KeepClaimNext(s, t);
    case ClaimTry => ClaimTryKeeps(s, t);
    case ClaimTest => KeepClaimTest(s, t);
    case ClaimRefuse => KeepClaimRefuse(s, t);
    case UndoStep => KeepUndoStep(s, t);
    case UndoEnd => KeepUndoEnd(s, t);
  }

  lemma MoveStepKeeps(s: State, t: Task)
    requires Inv(s) && At(s, t).Move? && !At(s, t).m.Isolated?
    ensures Inv(DoMgStep(s, t, At(s, t)))
  {
    match At(s, t).m
    case Ready =>
      if Fo(s, At(s, t).src).count == Fo(s, At(s, t).src).nr + 2 { KeepMgFreeze(s, t); } else { KeepMgBusy(s, t); }
    case Frozen => KeepMgSwitch(s, t);
    case Switched => KeepMgUnfreeze(s, t);
    case Unfrozen => KeepMgCopy(s, t);
    case Copied => KeepMgPrivate(s, t);
    case Moved => KeepMgRepoint(s, t);
    case Done => KeepMgDone(s, t);
  }

  lemma MigrateKeeps(s: State, t: Task, act: Action)
    requires Inv(s) && Can(s, t, act, true)
    requires MoveAction(act)
    ensures Inv(Do(s, t, act))
  {
    match act
    case MgStart => KeepMgStart(s, t);
    case MgAlloc(f) => KeepMgAlloc(s, t, f);
    case MgStep => MoveStepKeeps(s, t);
  }

  /** Any task, any step, any interleaving. */
  lemma StepKeeps(s: State, t: Task, act: Action)
    requires Inv(s) && Can(s, t, act, true)
    ensures Inv(Do(s, t, act))
  {
    if MoveAction(act) {
      MigrateKeeps(s, t, act);
    } else if ClaimAction(act) {
      ClaimKeeps(s, t, act);
    } else if ReclaimAction(act) {
      ReclaimKeeps(s, t, act);
    } else if FreeAction(act) {
      FreeKeeps(s, t, act);
    } else if GrabAction(act) {
      GrabKeeps(s, t, act);
    } else {
      JoinKeeps(s, t, act);
    }
  }

  lemma NamedTargetBreaks(s: State, t: Task, f: FolioId)
    requires MoveIs(At(s, t), Isolated) && f in Ab(s, At(s, t).a).sg
    ensures !PcOk(Do(s, t, MgAlloc(f)), t)
  {
  }

  /** Of the code's own steps exactly one breaks it: a migration's taking, as its new folio, a page that an entry
      of the same buffer names. */
  lemma StepKeepsIff(s: State, t: Task, act: Action)
    requires Inv(s) && Can(s, t, act, false)
    ensures Inv(Do(s, t, act)) <==> (act.MgAlloc? ==> act.f !in Ab(s, At(s, t).a).sg)
  {
    if act.MgAlloc? && act.f in Ab(s, At(s, t).a).sg {
      NamedTargetBreaks(s, t, act.f);
    } else {
      StepKeeps(s, t, act);
    }
  }

  lemma InitOk()
    ensures Inv(INIT)
  {
  }

  lemma {:induction false} RunKeeps(run: seq<Step>)
    requires Legal(INIT, run, true)
    ensures Inv(Run(INIT, run))
    decreases |run|
  {
    if run == [] {
      InitOk();
    } else {
      var n := |run| - 1;
      RunKeeps(run[..n]);
      StepKeeps(Run(INIT, run[..n]), run[n].task, run[n].act);
    }
  }

  // ----- runs by their states -----

  ghost predicate Linked(states: seq<State>, run: seq<Step>, k: nat, strict: bool) {
    && k < |run| && k + 1 < |states| && Can(states[k], run[k].task, run[k].act, strict)
    && states[k + 1] == Do(states[k], run[k].task, run[k].act)
  }

  /** A run with every state it passes through. */
  ghost predicate Trace(states: seq<State>, run: seq<Step>, strict: bool) {
    |states| == |run| + 1 && states[0] == INIT && forall k: nat :: k < |run| ==> Linked(states, run, k, strict)
  }

  /** Reached by a run; `strict` is as in `Can`, and without it the run is any run of the code's own machine. */
  ghost predicate Reached(s: State, strict: bool) {
    exists states, run :: Trace(states, run, strict) && states[|run|] == s
  }

  lemma {:induction false} TraceIsRun(states: seq<State>, run: seq<Step>, strict: bool)
    requires Trace(states, run, strict)
    ensures Legal(INIT, run, strict) && Run(INIT, run) == states[|run|]
    decreases |run|
  {
    if run != [] {
      var n := |run| - 1;
      var states', run' := states[..n + 1], run[..n];
      forall k: nat | k < n ensures Linked(states', run', k, strict) { assert Linked(states, run, k, strict); }
      TraceIsRun(states', run', strict);
      assert Linked(states, run, n, strict);
    }
  }

  lemma ReachedByRun(s: State, strict: bool)
    requires Reached(s, strict)
    ensures exists run :: Legal(INIT, run, strict) && Run(INIT, run) == s
  {
    var states, run :| Trace(states, run, strict) && states[|run|] == s;
    TraceIsRun(states, run, strict);
  }

  lemma Longer(states: seq<State>, run: seq<Step>, t: Task, act: Action, strict: bool)
    requires Trace(states, run, strict) && Can(states[|run|], t, act, strict)
    ensures Trace(states + [Do(states[|run|], t, act)], run + [Step(t, act)], strict)
  {
    var states', run' := states + [Do(states[|run|], t, act)], run + [Step(t, act)];
    forall k: nat | k < |run'| ensures Linked(states', run', k, strict) {
      if k < |run| { assert Linked(states, run, k, strict); }
    }
  }

  lemma {:induction false} RunHasTrace(run: seq<Step>, strict: bool) returns (states: seq<State>)
    requires Legal(INIT, run, strict)
    ensures Trace(states, run, strict) && states[|run|] == Run(INIT, run)
    decreases |run|
  {
    if run == [] {
      states := [INIT];
    } else {
      var n := |run| - 1;
      states := RunHasTrace(run[..n], strict);
      Longer(states, run[..n], run[n].task, run[n].act, strict);
      states := states + [Do(states[n], run[n].task, run[n].act)];
      assert run[..n] + [Step(run[n].task, run[n].act)] == run;
    }
  }

  /** The state a run ends in is reached, and so is no other. */
  lemma ReachedIff(s: State, strict: bool)
    ensures Reached(s, strict) <==> exists run :: Legal(INIT, run, strict) && Run(INIT, run) == s
  {
    if Reached(s, strict) {
      ReachedByRun(s, strict);
    } else if run :| Legal(INIT, run, strict) && Run(INIT, run) == s {
      var states := RunHasTrace(run, strict);
    }
  }
}
