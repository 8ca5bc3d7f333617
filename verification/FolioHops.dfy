/** Steps of a run put together: a join, a free and a migration of one chunk of buffer 0 that nothing disturbs. */
module FolioHops {
  import opened Basics
  import opened FolioMachine
  import opened FolioFrames
  import opened FolioRuns
  import opened FolioTheorems

  lemma ReachedInit(strict: bool)
    ensures Reached(INIT, strict)
  {
    assert Trace([INIT], [], strict);
  }

  lemma ReachedEither(s: State)
    requires Reached(s, true)
    ensures Reached(s, false)
  {
    var states, run :| Trace(states, run, true) && states[|run|] == s;
    forall k: nat | k < |run| ensures Linked(states, run, k, false) { assert Linked(states, run, k, true); }
    assert Trace(states, run, false);
  }

  lemma Hop(s: State, t: Task, act: Action, strict: bool) returns (s': State)
    requires Reached(s, strict) && Can(s, t, act, strict)
    ensures s' == Do(s, t, act) && Reached(s', strict) && OthersStay(s, s', t)
  {
    var states, run :| Trace(states, run, strict) && states[|run|] == s;
    Longer(states, run, t, act, strict);
    s' := Do(s, t, act);
    forall u: Task | u != t ensures At(s', u) == At(s, u) { StepOfOther(s, t, act, u); }
  }

  // ----- what a few steps change -----

  /** Task `t` changes no folio but `f` and `g`, and no buffer. */
  ghost predicate Only(s: State, s': State, t: Task, f: FolioId, g: FolioId) {
    s'.abds == s.abds && OthersStay(s, s', t) && FoliosStay(s, s', f, g)
  }

  predicate BufferStays(s: State, s': State, a: AbdId) { (a in s'.abds <==> a in s.abds) && Ab(s', a) == Ab(s, a) }

  ghost predicate FoliosStay(s: State, s': State, f: FolioId, g: FolioId) {
    forall h: FolioId :: h != f && h != g ==> Fo(s', h) == Fo(s, h)
  }

  // ----- a join -----

  lemma JoinTakes(s0: State, i: nat, f: FolioId) returns (s: State)
    requires Reached(s0, true) && At(s0, 0) == Join(0, i, 0, NextJoin) && i < |Ab(s0, 0).sg| && Ab(s0, 0).sg[i] == f
    ensures Reached(s, true) && Only(s0, s, 0, f, f) && At(s, 0) == Join(0, i, f, Added)
    ensures var x := Fo(s0, f);
            Fo(s, f) == x.(priv := Names(0), lock := Some(0), mapped := true, count := x.count + x.nr)
  {
    s := Hop(s0, 0, JoinMark, true);
    s := Hop(s, 0, JoinAdd(true), true);
  }

  lemma JoinLets(s0: State, i: nat, f: FolioId) returns (s: State)
    requires Reached(s0, true) && At(s0, 0) == Join(0, i, f, Added)
    ensures Reached(s, true) && Only(s0, s, 0, f, f) && At(s, 0) == Join(0, i + 1, 0, NextJoin)
    ensures Fo(s, f) == PutAlloc(Unlock(Fo(s0, f)))
  {
    s := Hop(s0, 0, JoinUnlock, true);
    s := Hop(s, 0, JoinPut, true);
  }

  // ----- a free -----

  lemma FreeReads(s0: State, i: nat, f: FolioId, strict: bool) returns (s: State)
    requires Reached(s0, strict) && At(s0, 0) == Free(0, i, 0, NextFree) && i < |Ab(s0, 0).sg| && Ab(s0, 0).sg[i] == f
    ensures Reached(s, strict) && Only(s0, s, 0, f, f) && At(s, 0) == Grab(Freer, 0, i, f, Tries) &&
            Fo(s, f) == Fo(s0, f)
  {
    s := Hop(s0, 0, FreeNext, strict);
    s := Hop(s, 0, GrabRead, strict);
  }

  lemma FreeGrabs(s0: State, i: nat, f: FolioId, strict: bool) returns (s: State)
    requires Reached(s0, strict) && At(s0, 0) == Grab(Freer, 0, i, f, Tries) && CanGet(Fo(s0, f))
    requires i < |Ab(s0, 0).sg| && Ab(s0, 0).sg[i] == f && i < |Ab(s0, 0).data|
    ensures Reached(s, strict) && Only(s0, s, 0, f, f) && At(s, 0) == Free(0, i, f, Locking)
    ensures Fo(s, f) == Get(Fo(s0, f), 0)
  {
    s := Hop(s0, 0, GrabGet, strict);
    s := Hop(s, 0, GrabTest, strict);
  }

  lemma FreeLocks(s0: State, i: nat, f: FolioId, strict: bool) returns (s: State)
    requires Reached(s0, strict) && At(s0, 0) == Free(0, i, f, Locking) && Fo(s0, f).lock.None?
    requires i < |Ab(s0, 0).sg| && Ab(s0, 0).sg[i] == f
    ensures Reached(s, strict) && Only(s0, s, 0, f, f) && At(s, 0) == Drop(Freer, 0, i, f, Mine)
    ensures Fo(s, f) == LockBy(Fo(s0, f), 0)
  {
    s := Hop(s0, 0, FreeLock, strict);
    s := Hop(s, 0, FreeTest, strict);
  }

  /** The chunk behind entry `i` is taken: one reference and the lock. */
  lemma FreeTakes(s0: State, i: nat, f: FolioId, strict: bool) returns (s: State)
    requires Reached(s0, strict) && At(s0, 0) == Free(0, i, 0, NextFree) && CanGet(Fo(s0, f)) && Fo(s0, f).lock.None?
    requires i < |Ab(s0, 0).sg| && Ab(s0, 0).sg[i] == f && i < |Ab(s0, 0).data|
    ensures Reached(s, strict) && Only(s0, s, 0, f, f) && At(s, 0) == Drop(Freer, 0, i, f, Mine)
    ensures Fo(s, f) == LockBy(Get(Fo(s0, f), 0), 0)
  {
    s := FreeReads(s0, i, f, strict);
    s := FreeGrabs(s, i, f, strict);
    s := FreeLocks(s, i, f, strict);
  }

  /** Only folio `f` changes, and buffer 0 has given one more entry back. */
  ghost predicate Gives(s: State, s': State, f: FolioId) {
    && Ab(s', 0) == Ab(s, 0).(gone := Ab(s, 0).gone + 1) && BufferStays(s, s', 1)
    && OthersStay(s, s', 0) && FoliosStay(s, s', f, f)
  }

  /** A chunk in the mapping: out of it, its private word off, unlocked, and its reference dropped. */
  lemma DropsJoined(s0: State, i: nat, f: FolioId) returns (s: State)
    requires Reached(s0, true) && At(s0, 0) == Drop(Freer, 0, i, f, Mine) && Fo(s0, f).mapped
    ensures Reached(s, true) && Gives(s0, s, f) && At(s, 0) == Drop(Freer, 0, i, f, LastPut)
    ensures Fo(s, f) == Unlock(Detach(Unmap(Fo(s0, f)))).(home := None)
  {
    s := Hop(s0, 0, DropStep, true);
    s := Hop(s, 0, DropStep, true);
  }

  /** A chunk outside the mapping: unlocked, its private word off, the allocation's reference dropped. */
  lemma DropsUnjoined(s0: State, i: nat, f: FolioId) returns (s: State)
    requires Reached(s0, false) && At(s0, 0) == Drop(Freer, 0, i, f, Mine) && !Fo(s0, f).mapped
    ensures Reached(s, false) && Gives(s0, s, f) && At(s, 0) == Drop(Freer, 0, i, f, LastPut)
    ensures Fo(s, f) == PutAlloc(Detach(Unlock(Fo(s0, f)))).(home := None)
  {
    var s1 := Hop(s0, 0, DropStep, false);
    assert Only(s0, s1, 0, f, f) && Fo(s1, f) == Unlock(Fo(s0, f)) && At(s1, 0) == Drop(Freer, 0, i, f, Unlocked);
    s := UnjoinedUnmarks(s1, i, f);
  }

  lemma UnjoinedUnmarks(s0: State, i: nat, f: FolioId) returns (s: State)
    requires Reached(s0, false) && At(s0, 0) == Drop(Freer, 0, i, f, Unlocked)
    ensures Reached(s, false) && Gives(s0, s, f) && At(s, 0) == Drop(Freer, 0, i, f, LastPut)
    ensures Fo(s, f) == PutAlloc(Detach(Fo(s0, f))).(home := None)
  {
    var s1 := Hop(s0, 0, DropStep, false);
    assert Only(s0, s1, 0, f, f) && Fo(s1, f) == Detach(Fo(s0, f)) && At(s1, 0) == Drop(Freer, 0, i, f, Unmarked);
    s := UnjoinedPuts(s1, i, f);
  }

  lemma UnjoinedPuts(s0: State, i: nat, f: FolioId) returns (s: State)
    requires Reached(s0, false) && At(s0, 0) == Drop(Freer, 0, i, f, Unmarked)
    ensures Reached(s, false) && Gives(s0, s, f) && At(s, 0) == Drop(Freer, 0, i, f, LastPut)
    ensures Fo(s, f) == PutAlloc(Fo(s0, f)).(home := None)
  {
    s := Hop(s0, 0, DropStep, false);
  }

  lemma DropsLast(s0: State, i: nat, f: FolioId, strict: bool) returns (s: State)
    requires Reached(s0, strict) && At(s0, 0) == Drop(Freer, 0, i, f, LastPut)
    ensures Reached(s, strict) && Only(s0, s, 0, f, f) && At(s, 0) == Free(0, i + 1, 0, NextFree)
    ensures Fo(s, f) == Put(Fo(s0, f), 0)
  {
    s := Hop(s0, 0, DropStep, strict);
  }

  // ----- a migration -----

  lemma MoveStarts(s0: State, f: FolioId, strict: bool) returns (s: State)
    requires Reached(s0, strict) && At(s0, 1).Idle? && CanGet(Fo(s0, f)) && Fo(s0, f).mapped
    requires Fo(s0, f).priv == Names(0) && Fo(s0, f).lock.None?
    ensures Reached(s, strict) && Only(s0, s, 1, f, f) && At(s, 1) == Move(f, 0, 0, Isolated)
    ensures Fo(s, f) == LockBy(Get(Fo(s0, f), 1), 1)
  {
    s := Hop(s0, 1, SpecGet(f), strict);
    s := Hop(s, 1, MgStart, strict);
  }

  lemma MoveAllocs(s0: State, src: FolioId, dst: FolioId) returns (s: State)
    requires Reached(s0, false) && At(s0, 1) == Move(src, 0, 0, Isolated) && IsFree(Fo(s0, dst))
    ensures Reached(s, false) && Only(s0, s, 1, dst, dst) && At(s, 1) == Move(src, dst, 0, Ready)
    ensures Fo(s, dst) == NewTarget(Fo(s0, src).nr, 1)
  {
    s := Hop(s0, 1, MgAlloc(dst), false);
  }

  lemma MoveFreezes(s0: State, src: FolioId, dst: FolioId) returns (s: State)
    requires Reached(s0, false) && At(s0, 1) == Move(src, 0, 0, Isolated) && src != dst && IsFree(Fo(s0, dst))
    requires Fo(s0, src).count == Fo(s0, src).nr + 2
    ensures Reached(s, false) && Only(s0, s, 1, src, dst) && At(s, 1) == Move(src, dst, 0, Frozen)
    ensures Fo(s, src) == Fo(s0, src).(count := 0, frozen := true)
    ensures Fo(s, dst) == NewTarget(Fo(s0, src).nr, 1)
  {
    var s1 := MoveAllocs(s0, src, dst);
    s := Hop(s1, 1, MgStep, false);
  }

  lemma MoveSwitches(s0: State, src: FolioId, dst: FolioId) returns (s: State)
    requires Reached(s0, false) && At(s0, 1) == Move(src, dst, 0, Frozen) && src != dst
    ensures Reached(s, false) && Only(s0, s, 1, src, dst) && At(s, 1) == Move(src, dst, 0, Unfrozen)
    ensures Fo(s, src) == Fo(s0, src).(mapped := false, frozen := false, count := 2)
    ensures Fo(s, dst) == Fo(s0, dst).(mapped := true, count := Fo(s0, dst).count + Fo(s0, dst).nr)
  {
    s := Hop(s0, 1, MgStep, false);
    s := Hop(s, 1, MgStep, false);
  }

  lemma MoveCopies(s0: State, src: FolioId, dst: FolioId) returns (s: State)
    requires Reached(s0, false) && At(s0, 1) == Move(src, dst, 0, Unfrozen)
    ensures Reached(s, false) && Only(s0, s, 1, dst, dst) && At(s, 1) == Move(src, dst, 0, Copied)
    ensures Fo(s, dst) == Fo(s0, dst).(bytes := Fo(s0, src).bytes)
  {
    s := Hop(s0, 1, MgStep, false);
  }

  lemma MoveNames(s0: State, src: FolioId, dst: FolioId) returns (s: State)
    requires Reached(s0, false) && At(s0, 1) == Move(src, dst, 0, Copied) && src != dst
    ensures Reached(s, false) && Only(s0, s, 1, src, dst) && At(s, 1) == Move(src, dst, 0, Moved)
    ensures Fo(s, src) == Detach(Fo(s0, src))
    ensures Fo(s, dst) == Fo(s0, dst).(priv := Names(0), count := Fo(s0, dst).count + 1)
  {
    s := Hop(s0, 1, MgStep, false);
  }

  /** Entry `k` of buffer 0, the first that names `src`, has been pointed at `dst`. */
  ghost predicate Pointed(s: State, s': State, src: FolioId, dst: FolioId, k: nat) {
    && FirstNaming(Ab(s, 0).sg, src, 0) == Some(k) && k < |Ab(s, 0).sg|
    && Ab(s', 0) == Ab(s, 0).(sg := Ab(s, 0).sg[k := dst]) && BufferStays(s, s', 1)
    && OthersStay(s, s', 1) && FoliosStay(s, s', src, dst)
  }

  lemma MoveRepoints(s0: State, src: FolioId, dst: FolioId, k: nat) returns (s: State)
    requires Reached(s0, false) && At(s0, 1) == Move(src, dst, 0, Moved) && src != dst
    requires FirstNaming(Ab(s0, 0).sg, src, 0) == Some(k)
    ensures Reached(s, false) && Pointed(s0, s, src, dst, k) && At(s, 1) == Move(src, dst, 0, Done)
    ensures Fo(s, src) == Fo(s0, src).(home := None) && Fo(s, dst) == Fo(s0, dst).(home := Some(Entry(0, k)))
  {
    s := Hop(s0, 1, MgStep, false);
  }

  lemma MoveLets(s0: State, src: FolioId, dst: FolioId) returns (s: State)
    requires Reached(s0, false) && At(s0, 1) == Move(src, dst, 0, Done)
    ensures Reached(s, false) && Only(s0, s, 1, dst, dst) && At(s, 1) == Reclaim(src, 0, Back)
    ensures Fo(s, dst) == PutAlloc(Unlock(Fo(s0, dst)))
  {
    s := Hop(s0, 1, MgStep, false);
  }

  lemma MoveEnds(s0: State, src: FolioId) returns (s: State)
    requires Reached(s0, false) && At(s0, 1) == Reclaim(src, 0, Back)
    ensures Reached(s, false) && Only(s0, s, 1, src, src) && At(s, 1).Idle?
    ensures Fo(s, src) == Put(Unlock(Fo(s0, src)), 1)
  {
    s := Hop(s0, 1, RcPutBack, false);
  }

  /** A joined chunk of buffer 0 with one page, as the mapping and the buffer have it. */
  function Joined(bytes: Bytes, i: nat): Folio {
    Folio(1, 2, false, false, Names(0), true, None, multiset{}, bytes, Some(Entry(0, i)))
  }

  /** The old folio and the new one when only the entry still has to follow. */
  function Emptied(bytes: Bytes, i: nat): Folio {
    Folio(1, 1, false, false, NoPriv, false, Some(1), multiset{1}, bytes, Some(Entry(0, i)))
  }

  function Filled(bytes: Bytes): Folio {
    Folio(1, 3, false, true, Names(0), true, Some(1), multiset{}, bytes, None)
  }

  lemma MovesOver(s0: State, src: FolioId, dst: FolioId, bytes: Bytes, i: nat) returns (s: State)
    requires Reached(s0, false) && At(s0, 1) == Move(src, 0, 0, Isolated) && src != dst && IsFree(Fo(s0, dst))
    requires Fo(s0, src) == LockBy(Get(Joined(bytes, i), 1), 1)
    ensures Reached(s, false) && Only(s0, s, 1, src, dst) && At(s, 1) == Move(src, dst, 0, Moved)
    ensures Fo(s, src) == Emptied(bytes, i) && Fo(s, dst) == Filled(bytes)
  {
    var s1 := MoveFreezes(s0, src, dst);
    var s2 := MoveSwitches(s1, src, dst);
    var s3 := MoveCopies(s2, src, dst);
    s := MoveNames(s3, src, dst);
  }

  /** A whole migration: entry `k` names `dst`, which is the chunk now, and `src` is the allocator's. */
  lemma Moves(s0: State, src: FolioId, dst: FolioId, bytes: Bytes, i: nat, k: nat) returns (s: State)
    requires Reached(s0, false) && At(s0, 1) == Move(src, 0, 0, Isolated) && src != dst && IsFree(Fo(s0, dst))
    requires Fo(s0, src) == LockBy(Get(Joined(bytes, i), 1), 1) && FirstNaming(Ab(s0, 0).sg, src, 0) == Some(k)
    ensures Reached(s, false) && Pointed(s0, s, src, dst, k) && At(s, 1).Idle?
    ensures IsFree(Fo(s, src)) && Fo(s, dst) == Joined(bytes, k)
  {
    var s1 := MovesOver(s0, src, dst, bytes, i);
    assert Ab(s1, 0) == Ab(s0, 0);
    var s2 := MoveRepoints(s1, src, dst, k);
    var s3 := MoveLets(s2, src, dst);
    s := MoveEnds(s3, src);
  }
}
