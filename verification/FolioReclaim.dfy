module FolioReclaim {
  /**
   Reclaim gets there: where nobody is in the way, the reclaiming task's own steps free the buffer, let every other
   chunk go and leave the folio it was called on to the kernel, which then frees it. So does a reader, to its bytes.
   */
  import opened Basics
  import opened FolioMachine
  import opened FolioInvariant
  import opened FolioFrames
  import opened FolioRuns
  import opened FolioTheorems
  import opened FolioHops
  import opened FolioReuseRun

  // ----- a task's own steps -----

  ghost predicate OwnLink(states: seq<State>, acts: seq<Action>, t: Task, k: nat) {
    && k < |acts| && k + 1 < |states| && Can(states[k], t, acts[k], true) && states[k + 1] == Do(states[k], t, acts[k])
  }

  ghost predicate OwnTrace(states: seq<State>, acts: seq<Action>, t: Task) {
    |states| == |acts| + 1 && forall k: nat :: k < |acts| ==> OwnLink(states, acts, t, k)
  }

  /** From `s` task `t` comes to `s'` by itself. */
  ghost predicate Leads(s: State, t: Task, s': State) {
    exists states, acts :: OwnTrace(states, acts, t) && states[0] == s && states[|acts|] == s'
  }

  lemma LeadsHere(s: State, t: Task)
    ensures Leads(s, t, s)
  {
    assert OwnTrace([s], [], t);
  }

  lemma OwnHop(s0: State, s: State, t: Task, act: Action) returns (s': State)
    requires Leads(s0, t, s) && Can(s, t, act, true)
    ensures s' == Do(s, t, act) && Leads(s0, t, s') && OthersStay(s, s', t)
  {
    var states, acts :| OwnTrace(states, acts, t) && states[0] == s0 && states[|acts|] == s;
    s' := Do(s, t, act);
    var states', acts' := states + [s'], acts + [act];
    forall k: nat | k < |acts'| ensures OwnLink(states', acts', t, k) {
      if k < |acts| { assert OwnLink(states, acts, t, k); }
    }
    assert OwnTrace(states', acts', t);
    forall u: Task | u != t ensures At(s', u) == At(s, u) { StepOfOther(s, t, act, u); }
  }

  lemma {:induction false} TraceKeeps(states: seq<State>, acts: seq<Action>, t: Task, k: nat)
    requires OwnTrace(states, acts, t) && k <= |acts| && Inv(states[0])
    ensures Inv(states[k])
  {
    if k > 0 {
      TraceKeeps(states, acts, t, k - 1);
      assert OwnLink(states, acts, t, k - 1);
      StepKeeps(states[k - 1], t, acts[k - 1]);
    }
  }

  lemma LeadsKeeps(s: State, t: Task, s': State)
    requires Inv(s) && Leads(s, t, s')
    ensures Inv(s')
  {
    var states, acts :| OwnTrace(states, acts, t) && states[0] == s && states[|acts|] == s';
    TraceKeeps(states, acts, t, |acts|);
  }

  lemma {:induction false} TraceReaches(states: seq<State>, acts: seq<Action>, t: Task, k: nat)
    requires OwnTrace(states, acts, t) && k <= |acts| && Reached(states[0], true)
    ensures Reached(states[k], true)
  {
    if k > 0 {
      TraceReaches(states, acts, t, k - 1);
      assert OwnLink(states, acts, t, k - 1);
      var s := Hop(states[k - 1], t, acts[k - 1], true);
    }
  }

  lemma LeadsReached(s: State, t: Task, s': State)
    requires Reached(s, true) && Leads(s, t, s')
    ensures Reached(s', true)
  {
    var states, acts :| OwnTrace(states, acts, t) && states[0] == s && states[|acts|] == s';
    TraceReaches(states, acts, t, |acts|);
  }

  /** The folio reclaim was called on keeps what it has of the allocation's reference. */
  ghost predicate SelfStays(s: State, s': State, rf: Option<FolioId>) {
    rf.Some? ==> Fo(s', rf.value).alloc == Fo(s, rf.value).alloc
  }

  // ----- the sweep -----

  /** The entry read and the folio behind it tried. */
  lemma SweepReads(s0: State, s: State, t: Task, rf: Option<FolioId>, a: AbdId, i: nat) returns (s': State)
    requires Leads(s0, t, s) && At(s, t) == Claim(rf, a, i, 0, Sweep) && i < |Ab(s, a).sg|
    ensures Leads(s0, t, s') && Only(s, s', t, Ab(s, a).sg[i], Ab(s, a).sg[i])
    ensures Fo(s', Ab(s, a).sg[i]) == Fo(s, Ab(s, a).sg[i])
    ensures At(s', t) == Grab(Claimer(rf), a, i, Ab(s, a).sg[i], Tries)
  {
    var s1 := OwnHop(s0, s, t, ClaimNext);
    s' := OwnHop(s0, s1, t, GrabRead);
  }

  lemma SweepGrabs(s0: State, s: State, t: Task, rf: Option<FolioId>, a: AbdId, i: nat, f: FolioId) returns (s': State)
    requires Leads(s0, t, s) && At(s, t) == Grab(Claimer(rf), a, i, f, Tries) && CanGet(Fo(s, f))
    requires i < |Ab(s, a).sg| && i < |Ab(s, a).data| && Ab(s, a).sg[i] == f
    ensures Leads(s0, t, s') && Only(s, s', t, f, f) && Fo(s', f) == Get(Fo(s, f), t)
    ensures At(s', t) == Claim(rf, a, i, f, Have)
  {
    var s1 := OwnHop(s0, s, t, GrabGet);
    s' := OwnHop(s0, s1, t, GrabTest);
  }

  lemma SweepLocks(s0: State, s: State, t: Task, rf: Option<FolioId>, a: AbdId, i: nat, f: FolioId) returns (s': State)
    requires Leads(s0, t, s) && At(s, t) == Claim(rf, a, i, f, Have) && rf != Some(f) && Fo(s, f).lock.None?
    requires i < |Ab(s, a).sg| && Ab(s, a).sg[i] == f
    ensures Leads(s0, t, s') && Only(s, s', t, f, f) && At(s', t) == Claim(rf, a, i + 1, 0, Sweep)
  {
    var s1 := SweepTries(s0, s, t, rf, a, i, f);
    s' := OwnHop(s0, s1, t, ClaimTest);
  }

  lemma SweepTries(s0: State, s: State, t: Task, rf: Option<FolioId>, a: AbdId, i: nat, f: FolioId) returns (s': State)
    requires Leads(s0, t, s) && At(s, t) == Claim(rf, a, i, f, Have) && rf != Some(f) && Fo(s, f).lock.None?
    ensures Leads(s0, t, s') && Only(s, s', t, f, f) && At(s', t) == Claim(rf, a, i, f, Got)
  {
    s' := OwnHop(s0, s, t, ClaimTry);
  }

  lemma SweepPasses(s0: State, s: State, t: Task, a: AbdId, i: nat, f: FolioId) returns (s': State)
    requires Leads(s0, t, s) && At(s, t) == Claim(Some(f), a, i, f, Have)
    ensures Leads(s0, t, s') && Only(s, s', t, f, f) && At(s', t) == Claim(Some(f), a, i + 1, 0, Sweep)
    ensures SelfStays(s, s', Some(f))
  {
    s' := OwnHop(s0, s, t, ClaimTry);
  }

  /** The chunk can be taken: it is the one reclaim was called on, or unlocked and not frozen. */
  ghost predicate Open(s: State, rf: Option<FolioId>, f: FolioId) {
    rf == Some(f) || (Fo(s, f).lock.None? && !Fo(s, f).frozen)
  }

  /** The sweep of `a` has come to entry `i`, and nobody is in its way. */
  ghost predicate Sweeping(s: State, t: Task, rf: Option<FolioId>, a: AbdId, i: nat) {
    && At(s, t) == Claim(rf, a, i, 0, Sweep) && i <= |Ab(s, a).sg| && NobodyWalks(s, a) && !Ab(s, a).dying
    && forall j :: i <= j < |Ab(s, a).sg| ==> Open(s, rf, Ab(s, a).sg[j])
  }

  /** A chunk of a live buffer whose mutex `t` holds, open to be taken, has references. */
  lemma OpenHasCount(s: State, t: Task, rf: Option<FolioId>, a: AbdId, i: nat)
    requires Inv(s) && Sweeping(s, t, rf, a, i) && i < |Ab(s, a).sg|
    ensures CanGet(Fo(s, Ab(s, a).sg[i])) && i < |Ab(s, a).data|
  {
    var f := Ab(s, a).sg[i];
    assert PcOk(s, t) && MtxTie(s, t, a) && EntryOk(s, a, i) && CountOk(s, f) && HomeOk(s, f) && LockTie(s, t, f);
    assert Open(s, rf, f);
  }

  lemma DistinctEntries(s: State, a: AbdId, i: nat, j: nat)
    requires Inv(s) && Ab(s, a).alive && i != j
    requires Ab(s, a).gone <= i < |Ab(s, a).sg| && Ab(s, a).gone <= j < |Ab(s, a).sg|
    ensures Ab(s, a).sg[i] != Ab(s, a).sg[j]
  {
    assert EntryOk(s, a, i) && EntryOk(s, a, j);
  }

  lemma SweepsOne(s0: State, s: State, t: Task, rf: Option<FolioId>, a: AbdId, i: nat) returns (s': State)
    requires Inv(s0) && Leads(s0, t, s) && Sweeping(s, t, rf, a, i) && i < |Ab(s, a).sg|
    ensures Leads(s0, t, s') && s'.abds == s.abds && Sweeping(s', t, rf, a, i + 1) && OthersStay(s, s', t)
    ensures SelfStays(s, s', rf)
  {
    var f := Ab(s, a).sg[i];
    LeadsKeeps(s0, t, s);
    OpenHasCount(s, t, rf, a, i);
    assert Open(s, rf, f);
    forall j | i < j < |Ab(s, a).sg| ensures Ab(s, a).sg[j] != f {
      assert PcOk(s, t);
      DistinctEntries(s, a, i, j);
    }
    var s1 := SweepReads(s0, s, t, rf, a, i);
    var s2 := SweepGrabs(s0, s1, t, rf, a, i, f);
    if rf == Some(f) {
      s' := SweepPasses(s0, s2, t, a, i, f);
    } else {
      s' := SweepLocks(s0, s2, t, rf, a, i, f);
    }
    SweepGoesOn(s, s', t, rf, a, i);
  }

  lemma SweepGoesOn(s: State, s': State, t: Task, rf: Option<FolioId>, a: AbdId, i: nat)
    requires Sweeping(s, t, rf, a, i) && i < |Ab(s, a).sg| && s'.abds == s.abds && OthersStay(s, s', t)
    requires FoliosStay(s, s', Ab(s, a).sg[i], Ab(s, a).sg[i]) && At(s', t) == Claim(rf, a, i + 1, 0, Sweep)
    requires forall j :: i < j < |Ab(s, a).sg| ==> Ab(s, a).sg[j] != Ab(s, a).sg[i]
    ensures Sweeping(s', t, rf, a, i + 1)
  {
    forall u: Task ensures !Walks(At(s', u), a) { assert u != t ==> !Walks(At(s, u), a); }
    forall j | i + 1 <= j < |Ab(s', a).sg| ensures Open(s', rf, Ab(s', a).sg[j]) { assert Open(s, rf, Ab(s, a).sg[j]); }
  }

  lemma {:induction false} SweepsAll(s0: State, s: State, t: Task, rf: Option<FolioId>, a: AbdId, i: nat)
    returns (s': State)
    requires Inv(s0) && Leads(s0, t, s) && Sweeping(s, t, rf, a, i)
    ensures Leads(s0, t, s') && s'.abds == s.abds && Sweeping(s', t, rf, a, |Ab(s, a).sg|) && OthersStay(s, s', t)
    ensures SelfStays(s, s', rf)
    decreases |Ab(s, a).sg| - i
  {
    s' := s;
    if i < |Ab(s, a).sg| {
      s' := SweepsOne(s0, s, t, rf, a, i);
      s' := SweepsAll(s0, s', t, rf, a, i + 1);
    }
  }

  // ----- giving the buffer up -----

  /** Nothing of the protocol's is left on the folio. */
  predicate Released(x: Folio) { !x.mapped && x.priv.NoPriv? && !x.alloc }

  /** The buffer is given up as far as entry `i`. */
  ghost predicate GivingUp(s: State, t: Task, rf: Option<FolioId>, a: AbdId, sg: seq<FolioId>, i: nat) {
    && At(s, t) == Claim(rf, a, i, 0, Evicting)
    && Ab(s, a).sg == sg && i <= |sg| && Ab(s, a).gone == i && Ab(s, a).alive
    && forall j :: 0 <= j < i && rf != Some(sg[j]) ==> Released(Fo(s, sg[j]))
  }

  /** Only folio `f` changes, and one more entry of `a` is given back. */
  ghost predicate GivesOne(s: State, s': State, t: Task, a: AbdId, f: FolioId) {
    && Ab(s', a).sg == Ab(s, a).sg && Ab(s', a).gone == Ab(s, a).gone + 1 && Ab(s', a).alive == Ab(s, a).alive
    && OthersStay(s, s', t) && FoliosStay(s, s', f, f)
  }

  lemma EvictsSelf(s0: State, s: State, t: Task, a: AbdId, i: nat, f: FolioId) returns (s': State)
    requires Leads(s0, t, s) && At(s, t) == Claim(Some(f), a, i, 0, Evicting)
    requires i < |Ab(s, a).sg| && Ab(s, a).sg[i] == f
    ensures Leads(s0, t, s') && GivesOne(s, s', t, a, f) && At(s', t) == Claim(Some(f), a, i + 1, 0, Evicting)
    ensures SelfStays(s, s', Some(f))
  {
    s' := OwnHop(s0, s, t, EvictNext);
  }

  lemma EvictStarts(s0: State, s: State, t: Task, rf: Option<FolioId>, a: AbdId, i: nat, f: FolioId) returns (s': State)
    requires Leads(s0, t, s) && At(s, t) == Claim(rf, a, i, 0, Evicting) && i < |Ab(s, a).sg| && Ab(s, a).sg[i] == f
    requires rf != Some(f)
    ensures Leads(s0, t, s') && Only(s, s', t, f, f) && At(s', t) == Drop(Claimer(rf), a, i, f, Mine)
    ensures Fo(s', f) == Fo(s, f)
  {
    s' := OwnHop(s0, s, t, EvictNext);
  }

  lemma DropsMapped(s0: State, s: State, t: Task, rf: Option<FolioId>, a: AbdId, i: nat, f: FolioId) returns (s': State)
    requires Leads(s0, t, s) && At(s, t) == Drop(Claimer(rf), a, i, f, Mine) && Fo(s, f).mapped && !Fo(s, f).alloc
    ensures Leads(s0, t, s') && GivesOne(s, s', t, a, f) && At(s', t) == Drop(Claimer(rf), a, i, f, LastPut)
    ensures Released(Fo(s', f))
  {
    var s1 := OwnHop(s0, s, t, DropStep);
    assert Only(s, s1, t, f, f) && Fo(s1, f) == Unmap(Fo(s, f)) && At(s1, t) == Drop(Claimer(rf), a, i, f, Removed);
    s' := DropsDetached(s0, s1, t, rf, a, i, f);
  }

  lemma DropsDetached(s0: State, s: State, t: Task, rf: Option<FolioId>, a: AbdId, i: nat, f: FolioId)
    returns (s': State)
    requires Leads(s0, t, s) && At(s, t) == Drop(Claimer(rf), a, i, f, Removed) && !Fo(s, f).mapped && !Fo(s, f).alloc
    ensures Leads(s0, t, s') && GivesOne(s, s', t, a, f) && At(s', t) == Drop(Claimer(rf), a, i, f, LastPut)
    ensures Released(Fo(s', f))
  {
    s' := OwnHop(s0, s, t, DropStep);
  }

  lemma DropsUnmapped(s0: State, s: State, t: Task, rf: Option<FolioId>, a: AbdId, i: nat, f: FolioId)
    returns (s': State)
    requires Leads(s0, t, s) && At(s, t) == Drop(Claimer(rf), a, i, f, Mine) && !Fo(s, f).mapped
    ensures Leads(s0, t, s') && GivesOne(s, s', t, a, f) && At(s', t) == Drop(Claimer(rf), a, i, f, LastPut)
    ensures Released(Fo(s', f))
  {
    var s1 := DropUnlocks(s0, s, t, rf, a, i, f);
    var s2 := DropUnmarks(s0, s1, t, rf, a, i, f);
    s' := DropsUnmarked(s0, s2, t, rf, a, i, f);
  }

  lemma DropUnlocks(s0: State, s: State, t: Task, rf: Option<FolioId>, a: AbdId, i: nat, f: FolioId) returns (s': State)
    requires Leads(s0, t, s) && At(s, t) == Drop(Claimer(rf), a, i, f, Mine) && !Fo(s, f).mapped
    ensures Leads(s0, t, s') && Only(s, s', t, f, f) && At(s', t) == Drop(Claimer(rf), a, i, f, Unlocked)
    ensures !Fo(s', f).mapped
  {
    s' := OwnHop(s0, s, t, DropStep);
  }

  lemma DropUnmarks(s0: State, s: State, t: Task, rf: Option<FolioId>, a: AbdId, i: nat, f: FolioId) returns (s': State)
    requires Leads(s0, t, s) && At(s, t) == Drop(Claimer(rf), a, i, f, Unlocked) && !Fo(s, f).mapped
    ensures Leads(s0, t, s') && Only(s, s', t, f, f) && At(s', t) == Drop(Claimer(rf), a, i, f, Unmarked)
    ensures !Fo(s', f).mapped && Fo(s', f).priv.NoPriv?
  {
    s' := OwnHop(s0, s, t, DropStep);
  }

  lemma DropsUnmarked(s0: State, s: State, t: Task, rf: Option<FolioId>, a: AbdId, i: nat, f: FolioId)
    returns (s': State)
    requires Leads(s0, t, s) && At(s, t) == Drop(Claimer(rf), a, i, f, Unmarked)
    requires !Fo(s, f).mapped && Fo(s, f).priv.NoPriv?
    ensures Leads(s0, t, s') && GivesOne(s, s', t, a, f) && At(s', t) == Drop(Claimer(rf), a, i, f, LastPut)
    ensures Released(Fo(s', f))
  {
    s' := OwnHop(s0, s, t, DropStep);
  }

  lemma DropsPut(s0: State, s: State, t: Task, rf: Option<FolioId>, a: AbdId, i: nat, f: FolioId) returns (s': State)
    requires Leads(s0, t, s) && At(s, t) == Drop(Claimer(rf), a, i, f, LastPut) && Released(Fo(s, f))
    ensures Leads(s0, t, s') && Only(s, s', t, f, f) && At(s', t) == Claim(rf, a, i + 1, 0, Evicting)
    ensures Released(Fo(s', f))
  {
    s' := OwnHop(s0, s, t, DropStep);
  }

  /** A chunk in the freer's hands has no allocation reference left if it is mapped. */
  lemma MineAlloc(s: State, t: Task)
    requires Inv(s) && At(s, t).Drop? && At(s, t).d.Mine? && Fo(s, At(s, t).p).mapped
    ensures !Fo(s, At(s, t).p).alloc
  {
    var p := At(s, t).p;
    assert PcOk(s, t) && CountOk(s, p) && HomeOk(s, p);
    assert LockTie(s, t, p) && RefTie(s, t, p) && MtxTie(s, t, At(s, t).a);
  }

  lemma EvictsOther(s0: State, s: State, t: Task, rf: Option<FolioId>, a: AbdId, i: nat, f: FolioId) returns (s': State)
    requires Inv(s0) && Leads(s0, t, s) && At(s, t) == Claim(rf, a, i, 0, Evicting)
    requires i < |Ab(s, a).sg| && Ab(s, a).sg[i] == f && rf != Some(f)
    ensures Leads(s0, t, s') && GivesOne(s, s', t, a, f) && At(s', t) == Claim(rf, a, i + 1, 0, Evicting)
    ensures Released(Fo(s', f))
  {
    var s1 := EvictStarts(s0, s, t, rf, a, i, f);
    var s2;
    if Fo(s1, f).mapped {
      LeadsKeeps(s0, t, s1);
      MineAlloc(s1, t);
      s2 := DropsMapped(s0, s1, t, rf, a, i, f);
    } else {
      s2 := DropsUnmapped(s0, s1, t, rf, a, i, f);
    }
    s' := DropsPut(s0, s2, t, rf, a, i, f);
  }

  lemma EvictsOne(s0: State, s: State, t: Task, rf: Option<FolioId>, a: AbdId, sg: seq<FolioId>, i: nat)
    returns (s': State)
    requires Inv(s0) && Leads(s0, t, s) && GivingUp(s, t, rf, a, sg, i) && i < |sg|
    requires forall j, k :: 0 <= j < k < |sg| ==> sg[j] != sg[k]
    ensures Leads(s0, t, s') && GivingUp(s', t, rf, a, sg, i + 1) && OthersStay(s, s', t) && SelfStays(s, s', rf)
  {
    if rf == Some(sg[i]) {
      s' := EvictsSelf(s0, s, t, a, i, sg[i]);
    } else {
      s' := EvictsOther(s0, s, t, rf, a, i, sg[i]);
    }
    forall j | 0 <= j < i + 1 && rf != Some(sg[j]) ensures Released(Fo(s', sg[j])) {
      if j < i { assert sg[j] != sg[i] && Fo(s', sg[j]) == Fo(s, sg[j]); }
    }
  }

  lemma {:induction false} EvictsAll(s0: State, s: State, t: Task, rf: Option<FolioId>, a: AbdId, sg: seq<FolioId>,
                                     i: nat)
    returns (s': State)
    requires Inv(s0) && Leads(s0, t, s) && GivingUp(s, t, rf, a, sg, i)
    requires forall j, k :: 0 <= j < k < |sg| ==> sg[j] != sg[k]
    ensures Leads(s0, t, s') && GivingUp(s', t, rf, a, sg, |sg|) && OthersStay(s, s', t) && SelfStays(s, s', rf)
    decreases |sg| - i
  {
    s' := s;
    if i < |sg| {
      s' := EvictsOne(s0, s, t, rf, a, sg, i);
      s' := EvictsAll(s0, s', t, rf, a, sg, i + 1);
    }
  }

  lemma EvictBegins(s0: State, s: State, t: Task, rf: Option<FolioId>, a: AbdId) returns (s': State)
    requires Leads(s0, t, s) && Sweeping(s, t, rf, a, |Ab(s, a).sg|) && Ab(s, a).gone == 0 && Ab(s, a).alive
    ensures Leads(s0, t, s') && GivingUp(s', t, rf, a, Ab(s, a).sg, 0) && OthersStay(s, s', t)
    ensures s'.folios == s.folios
  {
    s' := OwnHop(s0, s, t, Evict);
  }

  /** What is left of buffer `a`, which had the chunks `sg`: its entries, but nothing behind them, save for the folio
      reclaim was called on. */
  ghost predicate LetGo(s: State, rf: Option<FolioId>, a: AbdId, sg: seq<FolioId>) {
    !Ab(s, a).alive && Ab(s, a).sg == sg && forall j :: 0 <= j < |sg| && rf != Some(sg[j]) ==> Released(Fo(s, sg[j]))
  }

  lemma EvictEnds(s0: State, s: State, t: Task, rf: Option<FolioId>, a: AbdId, sg: seq<FolioId>) returns (s': State)
    requires Leads(s0, t, s) && GivingUp(s, t, rf, a, sg, |sg|)
    ensures Leads(s0, t, s') && OthersStay(s, s', t) && s'.folios == s.folios && LetGo(s', rf, a, sg)
    ensures At(s', t) == Answer(rf, a, ReclaimAt.Released)
  {
    s' := OwnHop(s0, s, t, EvictEnd);
  }

  lemma SweepIsApart(s0: State, s: State, t: Task, rf: Option<FolioId>, a: AbdId)
    requires Inv(s0) && Leads(s0, t, s) && Sweeping(s, t, rf, a, 0)
    ensures Ab(s, a).gone == 0 && Ab(s, a).alive
    ensures forall j, k :: 0 <= j < k < |Ab(s, a).sg| ==> Ab(s, a).sg[j] != Ab(s, a).sg[k]
  {
    LeadsKeeps(s0, t, s);
    assert PcOk(s, t);
    forall j, k | 0 <= j < k < |Ab(s, a).sg| ensures Ab(s, a).sg[j] != Ab(s, a).sg[k] { DistinctEntries(s, a, j, k); }
  }

  /** A sweep nobody is in the way of, of a reclaim or of the header's other buffer, frees the buffer. */
  lemma SweepFrees(s0: State, s: State, t: Task, rf: Option<FolioId>, a: AbdId) returns (s': State)
    requires Inv(s0) && Leads(s0, t, s) && Sweeping(s, t, rf, a, 0)
    ensures Leads(s0, t, s') && LetGo(s', rf, a, Ab(s, a).sg) && OthersStay(s, s', t) && SelfStays(s, s', rf)
    ensures At(s', t) == Answer(rf, a, ReclaimAt.Released)
  {
    var sg := Ab(s, a).sg;
    SweepIsApart(s0, s, t, rf, a);
    var s1 := SweepsAll(s0, s, t, rf, a, 0);
    var s2 := EvictBegins(s0, s1, t, rf, a);
    var s3 := EvictsAll(s0, s2, t, rf, a, sg, 0);
    s' := EvictEnds(s0, s3, t, rf, a, sg);
  }

  // ----- reclaim -----

  lemma EnterSweeps(s: State, t: Task, p: FolioId, a: AbdId) returns (s': State)
    requires At(s, t) == Reclaim(p, a, Counted) && Ab(s, a).mtx.None? && !Ab(s, a).dying && NobodyWalks(s, a)
    requires forall j :: 0 <= j < |Ab(s, a).sg| && Ab(s, a).sg[j] != p ==>
               Fo(s, Ab(s, a).sg[j]).lock.None? && !Fo(s, Ab(s, a).sg[j]).frozen
    ensures Leads(s, t, s') && Sweeping(s', t, Some(p), a, 0) && OthersStay(s, s', t) && s'.folios == s.folios
    ensures Ab(s', a).sg == Ab(s, a).sg
  {
    LeadsHere(s, t);
    s' := OwnHop(s, s, t, RcEnter);
    forall u: Task ensures !Walks(At(s', u), a) { assert u != t ==> !Walks(At(s, u), a); }
    forall j | 0 <= j < |Ab(s', a).sg| ensures Open(s', Some(p), Ab(s', a).sg[j]) { }
  }

  lemma CountedAlloc(s: State, t: Task, p: FolioId, a: AbdId)
    requires Inv(s) && At(s, t) == Reclaim(p, a, Counted) && Ab(s, a).mtx.None?
    ensures !Fo(s, p).alloc
  {
    assert PcOk(s, t) && HomeOk(s, p) && LockTie(s, t, p);
  }

  /** Reclaim has found the count exact; the mutex is free, nobody walks or is freeing the buffer, and every other
      chunk is unlocked and not frozen. Then by its own steps it comes to its success: the buffer is gone, its other
      chunks are let go, and the folio is in the mapping without a private word. */
  lemma ReclaimFrees(s: State, t: Task, p: FolioId, a: AbdId) returns (s': State)
    requires Reachable(s) && At(s, t) == Reclaim(p, a, Counted)
    requires Ab(s, a).mtx.None? && !Ab(s, a).dying && NobodyWalks(s, a)
    requires forall j :: 0 <= j < |Ab(s, a).sg| && Ab(s, a).sg[j] != p ==>
               Fo(s, Ab(s, a).sg[j]).lock.None? && !Fo(s, Ab(s, a).sg[j]).frozen
    ensures Leads(s, t, s') && Reachable(s') && OthersStay(s, s', t)
    ensures At(s', t) == Reclaim(p, a, ReclaimAt.Released) && LetGo(s', Some(p), a, Ab(s, a).sg)
    ensures Fo(s', p).mapped && Fo(s', p).priv.NoPriv? && Fo(s', p).home.None? && !Fo(s', p).alloc
  {
    ReachableInv(s);
    CountedAlloc(s, t, p, a);
    var s1 := EnterSweeps(s, t, p, a);
    s' := SweepFrees(s, s1, t, Some(p), a);
    LeadsReached(s, t, s');
    ReclaimReturns(s', t, p, a);
  }

  lemma PrelockSweeps(s: State, t: Task, a: AbdId) returns (s': State)
    requires At(s, t).Idle? && InUse(Ab(s, a)) && Ab(s, a).lru && Ab(s, a).mtx.None? && NobodyWalks(s, a)
    requires forall j :: 0 <= j < |Ab(s, a).sg| ==> Open(s, None, Ab(s, a).sg[j])
    ensures Leads(s, t, s') && Sweeping(s', t, None, a, 0) && OthersStay(s, s', t) && Ab(s', a).sg == Ab(s, a).sg
  {
    LeadsHere(s, t);
    s' := OwnHop(s, s, t, PrelockStart(a));
    forall u: Task ensures !Walks(At(s', u), a) { assert u != t ==> !Walks(At(s, u), a); }
    forall j | 0 <= j < |Ab(s', a).sg| ensures Open(s', None, Ab(s', a).sg[j]) { assert Open(s, None, Ab(s, a).sg[j]); }
  }

  /** So does the prelock of the header's other buffer, every chunk of it. */
  lemma PrelockFrees(s: State, t: Task, a: AbdId) returns (s': State)
    requires Reachable(s) && At(s, t).Idle?
    requires InUse(Ab(s, a)) && Ab(s, a).lru && Ab(s, a).mtx.None? && NobodyWalks(s, a)
    requires forall j :: 0 <= j < |Ab(s, a).sg| ==> Fo(s, Ab(s, a).sg[j]).lock.None? && !Fo(s, Ab(s, a).sg[j]).frozen
    ensures Leads(s, t, s') && Reachable(s') && At(s', t).Idle? && LetGo(s', None, a, Ab(s, a).sg)
  {
    ReachableInv(s);
    forall j | 0 <= j < |Ab(s, a).sg| ensures Open(s, None, Ab(s, a).sg[j]) { }
    var s1 := PrelockSweeps(s, t, a);
    s' := SweepFrees(s, s1, t, None, a);
    LeadsReached(s, t, s');
  }

  lemma KernelRemoves(s: State, t: Task, p: FolioId, a: AbdId) returns (s': State)
    requires At(s, t) == Reclaim(p, a, ReclaimAt.Released) && Fo(s, p).count == Fo(s, p).nr + 1
    ensures Leads(s, t, s') && OthersStay(s, s', t) && s'.abds == s.abds && FoliosStay(s, s', p, p)
    ensures At(s', t).Idle? && Fo(s', p).count == 0 && Fo(s', p).frozen == Fo(s, p).frozen
  {
    LeadsHere(s, t);
    var s1 := OwnHop(s, s, t, RcRemove);
    s' := OwnHop(s, s1, t, RcPutBack);
  }

  /** The folio itself is free once the kernel, having found that nobody else holds it, has taken it out. */
  lemma KernelFrees(s: State, t: Task, p: FolioId, a: AbdId) returns (s': State)
    requires Reachable(s) && At(s, t) == Reclaim(p, a, ReclaimAt.Released) && Fo(s, p).count == Fo(s, p).nr + 1
    ensures Leads(s, t, s') && Reachable(s') && At(s', t).Idle? && IsFree(Fo(s', p))
    ensures OthersStay(s, s', t) && s'.abds == s.abds && FoliosStay(s, s', p, p)
  {
    ReachableInv(s);
    NotFrozen(s, t, p, a);
    s' := KernelRemoves(s, t, p, a);
    LeadsReached(s, t, s');
  }

  lemma NotFrozen(s: State, t: Task, p: FolioId, a: AbdId)
    requires Inv(s) && At(s, t) == Reclaim(p, a, ReclaimAt.Released)
    ensures !Fo(s, p).frozen
  {
    assert PcOk(s, t) && CountOk(s, p) && LockTie(s, t, p);
  }

  // ----- readers -----

  /** Unless the entry's folio is just then frozen by a migration, a reader's own steps bring it to the bytes of that
      entry, with a reference of its own. */
  lemma ReaderGets(s: State, t: Task, a: AbdId, i: nat) returns (s': State)
    requires Reachable(s) && At(s, t).Idle? && InUse(Ab(s, a)) && i < |Ab(s, a).sg| && !Fo(s, Ab(s, a).sg[i]).frozen
    ensures Leads(s, t, s') && Reachable(s') && OthersStay(s, s', t) && s'.abds == s.abds
    ensures i < |Ab(s, a).data| && At(s', t) == Reading(Ab(s, a).sg[i], Ab(s, a).data[i])
    ensures Fo(s', Ab(s, a).sg[i]).bytes == Ab(s, a).data[i]
  {
    ReachableInv(s);
    assert EntryOk(s, a, i) && CountOk(s, Ab(s, a).sg[i]);
    LiveEntryHeld(s, a, i);
    s' := ReaderWalks(s, t, a, i);
    LeadsReached(s, t, s');
    ReaderBytes(s', t);
  }

  lemma ReaderWalks(s: State, t: Task, a: AbdId, i: nat) returns (s': State)
    requires At(s, t).Idle? && InUse(Ab(s, a)) && i < |Ab(s, a).sg| && i < |Ab(s, a).data|
    requires CanGet(Fo(s, Ab(s, a).sg[i]))
    ensures Leads(s, t, s') && OthersStay(s, s', t) && s'.abds == s.abds
    ensures At(s', t) == Reading(Ab(s, a).sg[i], Ab(s, a).data[i])
  {
    LeadsHere(s, t);
    var s1 := OwnHop(s, s, t, Look(a, i));
    var s2 := OwnHop(s, s1, t, GrabRead);
    var s3 := OwnHop(s, s2, t, GrabGet);
    s' := OwnHop(s, s3, t, GrabTest);
  }

  // ----- a run -----

  /** Nobody but `t` holds a folio while everyone else is idle. */
  lemma OnlyHolder(s: State, t: Task, f: FolioId)
    requires Inv(s) && forall u: Task :: u != t ==> At(s, u).Idle?
    ensures Fo(s, f).grabs == multiset{}[t := Fo(s, f).grabs[t]]
  {
    var m := Fo(s, f).grabs;
    forall u: Task ensures m[u] == multiset{}[t := m[t]][u] { assert RefTie(s, u, f) && LockTie(s, u, f); }
  }

  lemma FreeWhenLetGo(s: State, t: Task, f: FolioId)
    requires Inv(s) && (forall u: Task :: u != t ==> At(s, u).Idle?) && At(s, t).Reclaim? && At(s, t).p != f
    requires Released(Fo(s, f))
    ensures IsFree(Fo(s, f))
  {
    OnlyHolder(s, t, f);
    assert CountOk(s, f) && RefTie(s, t, f);
  }

  lemma AloneCount(s: State, t: Task, p: FolioId, a: AbdId)
    requires Inv(s) && (forall u: Task :: u != t ==> At(s, u).Idle?) && At(s, t) == Reclaim(p, a, ReclaimAt.Released)
    requires !Fo(s, p).alloc
    ensures Fo(s, p).count == Fo(s, p).nr + 1
  {
    OnlyHolder(s, t, p);
    NotFrozen(s, t, p, a);
    assert PcOk(s, t) && CountOk(s, p) && RefTie(s, t, p);
    assert Fo(s, p).grabs == multiset{t};
  }

  /** The two chunks have joined, and reclaim has been called on the first and found its count exact. */
  lemma ReclaimBegins() returns (s: State)
    ensures Reached(s, true) && At(s, 0) == Reclaim(10, 0, Counted) && (forall u: Task :: u != 0 ==> At(s, u).Idle?)
    ensures Ab(s, 0) == JOINED && Fo(s, 11) == Joined([8], 1)
  {
    var s0 := FolioReuseRun.Builds();
    var s1 := Joins(s0);
    var s2 := ReclaimLocks(s1);
    s := Hop(s2, 0, RcCount, true);
  }

  lemma ReclaimLocks(s0: State) returns (s: State)
    requires Shows(s0, true, Joined([7], 0), Joined([8], 1), JOINED, Idle, Idle) && RestIdle(s0)
    ensures Reached(s, true) && At(s, 0) == Reclaim(10, 0, Entered) && (forall u: Task :: u != 0 ==> At(s, u).Idle?)
    ensures Ab(s, 0) == JOINED && Fo(s, 10) == LockBy(Get(Joined([7], 0), 0), 0) && Fo(s, 11) == Joined([8], 1)
  {
    var s1 := Hop(s0, 0, SpecGet(10), true);
    s := Hop(s1, 0, RcStart, true);
  }

  /** A run that builds a buffer of two chunks, joins it and reclaims one of its folios: the buffer is gone, and both
      pages are the allocator's. */
  lemma ReclaimRun() returns (s: State)
    ensures Reachable(s) && !Ab(s, 0).alive && Ab(s, 0).sg == [10, 11] && IsFree(Fo(s, 10)) && IsFree(Fo(s, 11))
    ensures forall t: Task :: At(s, t).Idle?
  {
    var s0 := ReclaimBegins();
    var s1 := ReclaimFrees(s0, 0, 10, 0);
    ReachableInv(s1);
    assert JOINED.sg[1] == 11;
    FreeWhenLetGo(s1, 0, 11);
    AloneCount(s1, 0, 10, 0);
    s := KernelFrees(s1, 0, 10, 0);
  }
}
