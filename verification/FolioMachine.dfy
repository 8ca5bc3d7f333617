/**
 The ARC folio protocol of patches/zfs/arc-folio-lru.patch as a state machine.

 A state holds every folio, every buffer (ABD) and, for every task, how far it has got in the
 function it is running. One action is one step that other tasks may see in between: reading a
 scatterlist entry, taking a reference, taking a lock, adding to or removing from the mapping,
 each half of a migration. A run is any sequence of (task, action) pairs.

 `count` is the folio's real reference count and moves exactly as the kernel calls move it. The
 fields `alloc`, `grabs` and `home` are bookkeeping for the proofs: which of those references
 is the allocation's, which task holds the others, and which entry of which buffer the folio
 stands behind. No guard reads them, save that a page is free when nobody refers to it.
 */
module FolioMachine {
  import opened Basics

  type Task = nat
  type FolioId = nat
  type AbdId = nat
  type Bytes = seq<nat>

  /** A folio's private word: nothing, the marker of a strict chunk, or the buffer it joined for. */
  datatype Priv = NoPriv | Marker | Names(abd: AbdId)

  datatype Entry = Entry(abd: AbdId, idx: nat)

  datatype Folio = Folio(
    nr: nat,
    count: int,
    frozen: bool,
    alloc: bool,
    priv: Priv,
    mapped: bool,
    lock: Option<Task>,
    grabs: multiset<Task>,
    bytes: Bytes,
    home: Option<Entry>)

  /** `gone` counts the entries the free loop has already given back; they keep their old contents. */
  datatype Abd = Abd(
    alive: bool,
    built: bool,
    lru: bool,
    dying: bool,
    sg: seq<FolioId>,
    data: seq<Bytes>,
    gone: nat,
    mtx: Option<Task>)

  /** On whose behalf abd_sg_grab runs. A claimer locks every chunk of a buffer with tries only;
      `rf` is the folio reclaim was called on, absent when the buffer is the header's other one. */
  datatype Who = Reader | Freer | Claimer(rf: Option<FolioId>)

  datatype GrabAt = Reads | Tries | Checks
  datatype JoinAt = NextJoin | Adding | Added | Putting
  datatype FreeAt = Waiting | NextFree | Locking | Locked
  datatype DropAt = Mine | Removed | Unlocked | Unmarked | LastPut
  datatype ReclaimAt = Entered | Counted | Refused | Released | Back
  datatype ClaimAt = Sweep | Have | Got | Undo(lo: nat) | Evicting
  datatype MoveAt = Isolated | Ready | Frozen | Switched | Unfrozen | Copied | Moved | Done

  /** Where a task stands. `i` is the loop's index, `p` the folio in hand (0 when there is none).

      - `Spec`: a reference from elsewhere in the kernel, with or without the folio lock
      - `Grab`: inside abd_sg_grab for entry `i` of `a`
      - `Reading`: holds a reference from abd_sg_grab, having wanted the bytes `want`
      - `Join`: abd_lru_join; `Free`: abd_lru_free_chunks waiting for its locks; `Drop`: either
        free path with the chunk taken
      - `Reclaim`: abd_lru_release_folio before it has abd_mtx, and the kernel after it returned: true (`Released`),
        false (`Refused`), or done with (`Back`)
      - `Claim`: the sweep over all chunks in release_folio and abd_lru_try_prelock, its rollback,
        and the prelocked free
      - `Move`: abd_lru_migrate_folio */
  datatype Pc =
    | Idle
    | Building(a: AbdId)
    | Spec(p: FolioId, locked: bool)
    | Grab(w: Who, a: AbdId, i: nat, p: FolioId, g: GrabAt)
    | Reading(p: FolioId, want: Bytes)
    | Join(a: AbdId, i: nat, p: FolioId, j: JoinAt)
    | Free(a: AbdId, i: nat, p: FolioId, r: FreeAt)
    | Drop(w: Who, a: AbdId, i: nat, p: FolioId, d: DropAt)
    | Reclaim(p: FolioId, a: AbdId, c: ReclaimAt)
    | Claim(rf: Option<FolioId>, a: AbdId, i: nat, p: FolioId, k: ClaimAt)
    | Move(src: FolioId, dst: FolioId, a: AbdId, m: MoveAt)
    | VerifyFailed

  datatype State = State(folios: map<FolioId, Folio>, abds: map<AbdId, Abd>, pcs: map<Task, Pc>)

  const FREE_PAGE := Folio(1, 0, false, false, NoPriv, false, None, multiset{}, [], None)
  const NO_ABD := Abd(false, false, false, false, [], [], 0, None)
  const INIT := State(map[], map[], map[])

  function Fo(s: State, f: FolioId): Folio { if f in s.folios then s.folios[f] else FREE_PAGE }

  function Ab(s: State, a: AbdId): Abd { if a in s.abds then s.abds[a] else NO_ABD }

  function At(s: State, t: Task): Pc { if t in s.pcs then s.pcs[t] else Idle }

  function SetF(s: State, f: FolioId, x: Folio): State { s.(folios := s.folios[f := x]) }

  function SetA(s: State, a: AbdId, x: Abd): State { s.(abds := s.abds[a := x]) }

  function Go(s: State, t: Task, pc: Pc): State { s.(pcs := s.pcs[t := pc]) }

  // ----- the kernel calls the protocol is made of -----

  /** folio_try_get: fails on a folio whose count is zero, free or frozen. */
  predicate CanGet(x: Folio) { x.count > 0 }

  function Get(x: Folio, t: Task): Folio { x.(count := x.count + 1, grabs := x.grabs + multiset{t}) }

  function Put(x: Folio, t: Task): Folio { x.(count := x.count - 1, grabs := x.grabs - multiset{t}) }

  function PutAlloc(x: Folio): Folio { x.(count := x.count - 1, alloc := false) }

  /** A page the allocator may hand out: its count has reached zero and it is not frozen. */
  predicate IsFree(x: Folio) { x.count == 0 && !x.frozen }

  function NewChunk(nr: nat, bytes: Bytes, home: Entry): Folio {
    Folio(nr, 2, false, true, Marker, false, None, multiset{}, bytes, Some(home))
  }

  function NewTarget(nr: nat, t: Task): Folio {
    Folio(nr, 1, false, true, NoPriv, false, Some(t), multiset{}, [], None)
  }

  /** filemap_remove_folio: out of the mapping, one reference per page dropped. */
  function Unmap(x: Folio): Folio { x.(mapped := false, count := x.count - x.nr) }

  /** folio_detach_private. */
  function Detach(x: Folio): Folio { x.(priv := NoPriv, count := x.count - 1) }

  function Unlock(x: Folio): Folio { x.(lock := None) }

  // ----- who still uses a buffer -----

  /** A reader walking the entries of `a`; the ARC frees a buffer only once nobody does. */
  predicate Walks(pc: Pc, a: AbdId) { pc.Grab? && pc.w.Reader? && pc.a == a }

  ghost predicate NobodyWalks(s: State, a: AbdId) { forall t: Task :: !Walks(At(s, t), a) }

  /** The first entry at or after `k` naming `f`, as the loop of abd_lru_migrate_folio finds it. */
  function FirstNaming(sg: seq<FolioId>, f: FolioId, k: nat): (r: Option<nat>)
    requires k <= |sg|
    ensures r.Some? ==> k <= r.value < |sg| && sg[r.value] == f && forall j :: k <= j < r.value ==> sg[j] != f
    ensures r.None? ==> forall j :: k <= j < |sg| ==> sg[j] != f
    decreases |sg| - k
  {
    if k == |sg| then None else if sg[k] == f then Some(k) else FirstNaming(sg, f, k + 1)
  }

  // ----- actions -----

  datatype Action =
    | NewAbd(a: AbdId) | AddChunk(f: FolioId, nr: nat, b: Bytes) | Publish
    | Look(a: AbdId, i: nat) | ReadDone
    | GrabRead | GrabGet | GrabTest
    | SpecGet(f: FolioId) | SpecPut | SpecLock | SpecUnlock
    | JoinStart(a: AbdId) | JoinMark | JoinAdd(ok: bool) | JoinUnlock | JoinPut | JoinEnd
    | FreeStart(a: AbdId) | FreeEnter | FreeNext | FreeLock | FreeTest | FreeEnd
    | DropStep
    | RcStart | RcCount | RcEnter | RcRemove | RcPutBack
    | PrelockStart(a: AbdId) | ClaimNext | ClaimTry | ClaimTest | ClaimRefuse | UndoStep | UndoEnd
    | Evict | EvictNext | EvictEnd
    | MgStart | MgAlloc(f: FolioId) | MgStep

  predicate JoinIs(pc: Pc, j: JoinAt) { pc.Join? && pc.j == j }
  predicate FreeIs(pc: Pc, r: FreeAt) { pc.Free? && pc.r == r }
  predicate ReclaimIs(pc: Pc, c: ReclaimAt) { pc.Reclaim? && pc.c == c }
  predicate ClaimIs(pc: Pc, k: ClaimAt) { pc.Claim? && pc.k == k }
  predicate MoveIs(pc: Pc, m: MoveAt) { pc.Move? && pc.m == m }
  predicate GrabIs(pc: Pc, g: GrabAt) { pc.Grab? && pc.g == g }

  /** A published buffer nobody has decided to free. */
  predicate InUse(x: Abd) { x.alive && x.built && !x.dying }

  /** When `t` may take the action. `strict` asks that a migration target is not a page which an
      entry of the same buffer still names; the code does not ask it (see FolioRuns and FolioReuseRun). */
  ghost predicate Can(s: State, t: Task, act: Action, strict: bool) {
    var pc := At(s, t);
    match act
    case NewAbd(a) => pc.Idle? && a !in s.abds
    case AddChunk(f, nr, b) => pc.Building? && IsFree(Fo(s, f)) && nr >= 1
    case Publish => pc.Building?
    case Look(a, i) => pc.Idle? && InUse(Ab(s, a)) && i < |Ab(s, a).sg|
    case ReadDone => pc.Reading?
    case GrabRead => GrabIs(pc, Reads) && pc.i < |Ab(s, pc.a).sg|
    case GrabGet => GrabIs(pc, Tries)
    case GrabTest => GrabIs(pc, Checks) && pc.i < |Ab(s, pc.a).sg| && pc.i < |Ab(s, pc.a).data|
    case SpecGet(f) => pc.Idle? && CanGet(Fo(s, f))
    case SpecPut => pc.Spec? && !pc.locked
    case SpecLock => pc.Spec? && !pc.locked && Fo(s, pc.p).mapped && Fo(s, pc.p).lock.None?
    case SpecUnlock => pc.Spec? && pc.locked
    case JoinStart(a) => pc.Idle? && InUse(Ab(s, a)) && !Ab(s, a).lru && Ab(s, a).mtx.None?
    case JoinMark => JoinIs(pc, NextJoin) && pc.i < |Ab(s, pc.a).sg|
    case JoinAdd(ok) => JoinIs(pc, Adding)
    case JoinUnlock => JoinIs(pc, Added)
    case JoinPut => JoinIs(pc, Putting)
    case JoinEnd => JoinIs(pc, NextJoin) && pc.i == |Ab(s, pc.a).sg|
    case FreeStart(a) => pc.Idle? && InUse(Ab(s, a)) && Ab(s, a).lru && NobodyWalks(s, a)
    case FreeEnter => FreeIs(pc, Waiting) && Ab(s, pc.a).mtx.None?
    case FreeNext => FreeIs(pc, NextFree) && pc.i < |Ab(s, pc.a).sg|
    case FreeLock => FreeIs(pc, Locking) && Fo(s, pc.p).lock.None?
    case FreeTest => FreeIs(pc, Locked) && pc.i < |Ab(s, pc.a).sg|
    case FreeEnd => FreeIs(pc, NextFree) && pc.i == |Ab(s, pc.a).sg|
    case DropStep => pc.Drop?
    case RcStart => pc.Spec? && !pc.locked && Fo(s, pc.p).mapped && Fo(s, pc.p).lock.None?
    case RcCount => ReclaimIs(pc, Entered)
    case RcEnter => ReclaimIs(pc, Counted)
    case RcRemove => ReclaimIs(pc, Released)
    case RcPutBack => ReclaimIs(pc, Back) || ReclaimIs(pc, Refused)
    case PrelockStart(a) => pc.Idle? && InUse(Ab(s, a)) && Ab(s, a).lru && Ab(s, a).mtx.None?
    case ClaimNext => ClaimIs(pc, Sweep) && pc.i < |Ab(s, pc.a).sg|
    case ClaimTry => ClaimIs(pc, Have)
    case ClaimTest => ClaimIs(pc, Got) && pc.i < |Ab(s, pc.a).sg|
    case ClaimRefuse => ClaimIs(pc, Sweep)
    case UndoStep => pc.Claim? && pc.k.Undo? && pc.k.lo < pc.i && pc.k.lo < |Ab(s, pc.a).sg|
    case UndoEnd => pc.Claim? && pc.k.Undo? && pc.k.lo == pc.i
    case Evict => ClaimIs(pc, Sweep) && pc.i == |Ab(s, pc.a).sg| && !Ab(s, pc.a).dying && NobodyWalks(s, pc.a)
    case EvictNext => ClaimIs(pc, Evicting) && pc.i < |Ab(s, pc.a).sg|
    case EvictEnd => ClaimIs(pc, Evicting) && pc.i == |Ab(s, pc.a).sg|
    case MgStart =>
      pc.Spec? && !pc.locked && Fo(s, pc.p).mapped && Fo(s, pc.p).priv.Names? && Fo(s, pc.p).lock.None?
    case MgAlloc(f) => MoveIs(pc, Isolated) && IsFree(Fo(s, f)) && (strict ==> f !in Ab(s, pc.a).sg)
    case MgStep => pc.Move? && !pc.m.Isolated?
  }

  /** The state after the action, at whose guard `pc` stands. */
  function Do(s: State, t: Task, act: Action): State {
    var pc := At(s, t);
    match act
    case NewAbd(a) => Go(SetA(s, a, Abd(true, false, false, false, [], [], 0, None)), t, Building(a))
    case AddChunk(f, nr, b) => if pc.Building? then DoAddChunk(s, pc.a, f, nr, b) else s
    case Publish => if pc.Building? then Go(SetA(s, pc.a, Ab(s, pc.a).(built := true)), t, Idle) else s
    case Look(a, i) => Go(s, t, Grab(Reader, a, i, 0, Reads))
    case ReadDone => if pc.Reading? then Go(SetF(s, pc.p, Put(Fo(s, pc.p), t)), t, Idle) else s
    case GrabRead => if pc.Grab? && pc.i < |Ab(s, pc.a).sg| then DoGrabRead(s, t, pc) else s
    case GrabGet => if pc.Grab? then DoGrabGet(s, t, pc) else s
    case GrabTest =>
      if pc.Grab? && pc.i < |Ab(s, pc.a).sg| && pc.i < |Ab(s, pc.a).data| then DoGrabTest(s, t, pc) else s
    case SpecGet(f) => Go(SetF(s, f, Get(Fo(s, f), t)), t, Spec(f, false))
    case SpecPut => if pc.Spec? then Go(SetF(s, pc.p, Put(Fo(s, pc.p), t)), t, Idle) else s
    case SpecLock => if pc.Spec? then Go(SetF(s, pc.p, LockBy(Fo(s, pc.p), t)), t, Spec(pc.p, true)) else s
    case SpecUnlock => if pc.Spec? then Go(SetF(s, pc.p, Unlock(Fo(s, pc.p))), t, Spec(pc.p, false)) else s
    case JoinStart(a) => Go(SetA(s, a, Ab(s, a).(lru := true, mtx := Some(t))), t, Join(a, 0, 0, NextJoin))
    case JoinMark => if pc.Join? && pc.i < |Ab(s, pc.a).sg| then DoJoinMark(s, t, pc) else s
    case JoinAdd(ok) => if pc.Join? then DoJoinAdd(s, t, pc, ok) else s
    case JoinUnlock => if pc.Join? then Go(SetF(s, pc.p, Unlock(Fo(s, pc.p))), t, pc.(j := Putting)) else s
    case JoinPut =>
      if pc.Join? then Go(SetF(s, pc.p, PutAlloc(Fo(s, pc.p))), t, Join(pc.a, pc.i + 1, 0, NextJoin)) else s
    case JoinEnd => if pc.Join? then Go(SetA(s, pc.a, Ab(s, pc.a).(mtx := None)), t, Idle) else s
    case FreeStart(a) => Go(SetA(s, a, Ab(s, a).(dying := true)), t, Free(a, 0, 0, Waiting))
    case FreeEnter =>
      if pc.Free? then Go(SetA(s, pc.a, Ab(s, pc.a).(mtx := Some(t))), t, Free(pc.a, 0, 0, NextFree)) else s
    case FreeNext => if pc.Free? then Go(s, t, Grab(Freer, pc.a, pc.i, 0, Reads)) else s
    case FreeLock => if pc.Free? then Go(SetF(s, pc.p, LockBy(Fo(s, pc.p), t)), t, pc.(r := Locked)) else s
    case FreeTest => if pc.Free? && pc.i < |Ab(s, pc.a).sg| then DoFreeTest(s, t, pc) else s
    case FreeEnd => if pc.Free? then Go(SetA(s, pc.a, Ab(s, pc.a).(mtx := None, alive := false)), t, Idle) else s
    case DropStep => if pc.Drop? then DoDrop(s, t, pc) else s
    case RcStart => if pc.Spec? then DoRcStart(s, t, pc) else s
    case RcCount => if pc.Reclaim? then DoRcCount(s, t, pc) else s
    case RcEnter => if pc.Reclaim? then DoRcEnter(s, t, pc) else s
    case RcRemove => if pc.Reclaim? then DoRcRemove(s, t, pc) else s
    case RcPutBack => if pc.Reclaim? then Go(SetF(s, pc.p, Put(Unlock(Fo(s, pc.p)), t)), t, Idle) else s
    case PrelockStart(a) => Go(SetA(s, a, Ab(s, a).(mtx := Some(t))), t, Claim(None, a, 0, 0, Sweep))
    case ClaimNext => if pc.Claim? then Go(s, t, Grab(Claimer(pc.rf), pc.a, pc.i, 0, Reads)) else s
    case ClaimTry => if pc.Claim? then DoClaimTry(s, t, pc) else s
    case ClaimTest => if pc.Claim? && pc.i < |Ab(s, pc.a).sg| then DoClaimTest(s, t, pc) else s
    case ClaimRefuse => if pc.Claim? then Go(s, t, pc.(k := Undo(0))) else s
    case UndoStep => if pc.Claim? && pc.k.Undo? && pc.k.lo < |Ab(s, pc.a).sg| then DoUndoStep(s, t, pc) else s
    case UndoEnd =>
      if pc.Claim? then Go(SetA(s, pc.a, Ab(s, pc.a).(mtx := None)), t, Answer(pc.rf, pc.a, Refused)) else s
    case Evict =>
      if pc.Claim? then Go(SetA(s, pc.a, Ab(s, pc.a).(dying := true)), t, pc.(i := 0, k := Evicting)) else s
    case EvictNext => if pc.Claim? && pc.i < |Ab(s, pc.a).sg| then DoEvictNext(s, t, pc) else s
    case EvictEnd =>
      if pc.Claim? then
        Go(SetA(s, pc.a, Ab(s, pc.a).(mtx := None, alive := false)), t, Answer(pc.rf, pc.a, Released))
      else s
    case MgStart => if pc.Spec? then DoMgStart(s, t, pc) else s
    case MgAlloc(f) =>
      if pc.Move? then Go(SetF(s, f, NewTarget(Fo(s, pc.src).nr, t)), t, pc.(dst := f, m := Ready)) else s
    case MgStep => if pc.Move? then DoMgStep(s, t, pc) else s
  }

  function LockBy(x: Folio, t: Task): Folio { x.(lock := Some(t)) }

  /** What the sweep answers: to the kernel, or to arc_lru_evict for the other buffer. */
  function Answer(rf: Option<FolioId>, a: AbdId, c: ReclaimAt): Pc {
    if rf.Some? then Reclaim(rf.value, a, c) else Idle
  }

  /** One round of the loop in abd_alloc_chunks: the chunk is marked and appended. */
  function DoAddChunk(s: State, a: AbdId, f: FolioId, nr: nat, b: Bytes): State {
    var x := Ab(s, a);
    SetA(SetF(s, f, NewChunk(nr, b, Entry(a, |x.sg|))), a, x.(sg := x.sg + [f], data := x.data + [b]))
  }

  function DoGrabRead(s: State, t: Task, pc: Pc): State
    requires pc.Grab? && pc.i < |Ab(s, pc.a).sg|
  {
    Go(s, t, pc.(p := Ab(s, pc.a).sg[pc.i], g := Tries))
  }

  function DoGrabGet(s: State, t: Task, pc: Pc): State
    requires pc.Grab?
  {
    if CanGet(Fo(s, pc.p)) then Go(SetF(s, pc.p, Get(Fo(s, pc.p), t)), t, pc.(g := Checks))
    else Go(s, t, pc.(g := Reads))
  }

  /** The reference counts only if the entry still names the folio it was taken on. */
  function DoGrabTest(s: State, t: Task, pc: Pc): State
    requires pc.Grab? && pc.i < |Ab(s, pc.a).sg| && pc.i < |Ab(s, pc.a).data|
  {
    if Ab(s, pc.a).sg[pc.i] == pc.p then Go(s, t, Grabbed(pc, Ab(s, pc.a).data[pc.i]))
    else Go(SetF(s, pc.p, Put(Fo(s, pc.p), t)), t, pc.(g := Reads))
  }

  function Grabbed(pc: Pc, want: Bytes): Pc
    requires pc.Grab?
  {
    match pc.w
    case Reader => Reading(pc.p, want)
    case Freer => Free(pc.a, pc.i, pc.p, Locking)
    case Claimer(rf) => Claim(rf, pc.a, pc.i, pc.p, Have)
  }

  /** folio_change_private, then filemap_add_folio locks the folio without waiting. */
  function DoJoinMark(s: State, t: Task, pc: Pc): State
    requires pc.Join? && pc.i < |Ab(s, pc.a).sg|
  {
    var p := Ab(s, pc.a).sg[pc.i];
    Go(SetF(s, p, LockBy(Fo(s, p).(priv := Names(pc.a)), t)), t, pc.(p := p, j := Adding))
  }

  function DoJoinAdd(s: State, t: Task, pc: Pc, ok: bool): State
    requires pc.Join?
  {
    var x := Fo(s, pc.p);
    if ok then Go(SetF(s, pc.p, x.(mapped := true, count := x.count + x.nr)), t, pc.(j := Added))
    else Go(SetF(s, pc.p, x.(lock := None, priv := Marker)), t, Join(pc.a, pc.i + 1, 0, NextJoin))
  }

  function DoFreeTest(s: State, t: Task, pc: Pc): State
    requires pc.Free? && pc.i < |Ab(s, pc.a).sg|
  {
    if Ab(s, pc.a).sg[pc.i] == pc.p then Go(s, t, Drop(Freer, pc.a, pc.i, pc.p, Mine))
    else Go(SetF(s, pc.p, Put(Unlock(Fo(s, pc.p)), t)), t, Grab(Freer, pc.a, pc.i, 0, Reads))
  }

  /** One statement of the tail of abd_lru_free_chunks for the chunk in hand. */
  function DoDrop(s: State, t: Task, pc: Pc): State
    requires pc.Drop?
  {
    var x := Fo(s, pc.p);
    match pc.d
    case Mine =>
      if x.mapped then Go(SetF(s, pc.p, Unmap(x)), t, pc.(d := Removed))
      else Go(SetF(s, pc.p, Unlock(x)), t, pc.(d := Unlocked))
    case Removed => Go(GiveUp(SetF(s, pc.p, Unlock(Detach(x)).(home := None)), pc.a), t, pc.(d := LastPut))
    case Unlocked => Go(SetF(s, pc.p, Detach(x)), t, pc.(d := Unmarked))
    case Unmarked => Go(GiveUp(SetF(s, pc.p, PutAlloc(x).(home := None)), pc.a), t, pc.(d := LastPut))
    case LastPut => Go(SetF(s, pc.p, Put(x, t)), t, NextDrop(pc))
  }

  function NextDrop(pc: Pc): Pc
    requires pc.Drop?
  {
    if pc.w.Claimer? then Claim(pc.w.rf, pc.a, pc.i + 1, 0, Evicting) else Free(pc.a, pc.i + 1, 0, NextFree)
  }

  function GiveUp(s: State, a: AbdId): State { SetA(s, a, Ab(s, a).(gone := Ab(s, a).gone + 1)) }

  /** release_folio on a folio with no private word succeeds at once. */
  function DoRcStart(s: State, t: Task, pc: Pc): State
    requires pc.Spec?
  {
    var x := Fo(s, pc.p);
    Go(SetF(s, pc.p, LockBy(x, t)), t,
       if x.priv.Names? then Reclaim(pc.p, x.priv.abd, Entered) else Reclaim(pc.p, 0, Released))
  }

  function DoRcCount(s: State, t: Task, pc: Pc): State
    requires pc.Reclaim?
  {
    Go(s, t, pc.(c := if Fo(s, pc.p).count == Fo(s, pc.p).nr + 2 then Counted else Refused))
  }

  function DoRcEnter(s: State, t: Task, pc: Pc): State
    requires pc.Reclaim?
  {
    var b := Ab(s, pc.a);
    if b.mtx.None? then Go(SetA(s, pc.a, b.(mtx := Some(t))), t, Claim(Some(pc.p), pc.a, 0, 0, Sweep))
    else Go(s, t, pc.(c := Refused))
  }

  /** The kernel takes the folio out of the mapping only if nobody else holds it. */
  function DoRcRemove(s: State, t: Task, pc: Pc): State
    requires pc.Reclaim?
  {
    var x := Fo(s, pc.p);
    if x.count == x.nr + 1 then Go(SetF(s, pc.p, Unmap(x)), t, pc.(c := Back)) else Go(s, t, pc.(c := Back))
  }

  function DoClaimTry(s: State, t: Task, pc: Pc): State
    requires pc.Claim?
  {
    var x := Fo(s, pc.p);
    if pc.rf == Some(pc.p) then Go(SetF(s, pc.p, Put(x, t)), t, Claim(pc.rf, pc.a, pc.i + 1, 0, Sweep))
    else if x.lock.None? then Go(SetF(s, pc.p, LockBy(x, t)), t, pc.(k := Got))
    else Go(SetF(s, pc.p, Put(x, t)), t, pc.(p := 0, k := Undo(0)))
  }

  function DoClaimTest(s: State, t: Task, pc: Pc): State
    requires pc.Claim? && pc.i < |Ab(s, pc.a).sg|
  {
    if Ab(s, pc.a).sg[pc.i] == pc.p then Go(s, t, Claim(pc.rf, pc.a, pc.i + 1, 0, Sweep))
    else Go(SetF(s, pc.p, Put(Unlock(Fo(s, pc.p)), t)), t, pc.(p := 0, k := Undo(0)))
  }

  function DoUndoStep(s: State, t: Task, pc: Pc): State
    requires pc.Claim? && pc.k.Undo? && pc.k.lo < |Ab(s, pc.a).sg|
  {
    var p := Ab(s, pc.a).sg[pc.k.lo];
    var pc1 := pc.(k := Undo(pc.k.lo + 1));
    if pc.rf == Some(p) then Go(s, t, pc1) else Go(SetF(s, p, Put(Unlock(Fo(s, p)), t)), t, pc1)
  }

  /** The folio reclaim was called on is only detached; the others are dropped like any chunk. */
  function DoEvictNext(s: State, t: Task, pc: Pc): State
    requires pc.Claim? && pc.i < |Ab(s, pc.a).sg|
  {
    var p := Ab(s, pc.a).sg[pc.i];
    if pc.rf == Some(p) then
      Go(GiveUp(SetF(s, p, Detach(Fo(s, p)).(home := None)), pc.a), t, pc.(i := pc.i + 1))
    else Go(s, t, Drop(Claimer(pc.rf), pc.a, pc.i, p, Mine))
  }

  function DoMgStart(s: State, t: Task, pc: Pc): State
    requires pc.Spec?
  {
    var x := Fo(s, pc.p);
    if x.priv.Names? then Go(SetF(s, pc.p, LockBy(x, t)), t, Move(pc.p, 0, x.priv.abd, Isolated)) else s
  }

  function DoMgStep(s: State, t: Task, pc: Pc): State
    requires pc.Move?
  {
    match pc.m
    case Isolated => s
    case Ready => DoMgFreeze(s, t, pc)
    case Frozen => DoMgSwitch(s, t, pc)
    case Switched => DoMgUnfreeze(s, t, pc)
    case Unfrozen => DoMgCopy(s, t, pc)
    case Copied => DoMgPrivate(s, t, pc)
    case Moved => DoMgRepoint(s, t, pc)
    case Done => Go(SetF(s, pc.dst, PutAlloc(Unlock(Fo(s, pc.dst)))), t, Reclaim(pc.src, pc.a, Back))
  }

  /** folio_migrate_mapping: only on the exact count, which is then held at zero. */
  function DoMgFreeze(s: State, t: Task, pc: Pc): State
    requires pc.Move?
  {
    var x := Fo(s, pc.src);
    if x.count == x.nr + 2 then Go(SetF(s, pc.src, x.(count := 0, frozen := true)), t, pc.(m := Frozen))
    else Go(SetF(s, pc.dst, PutAlloc(Unlock(Fo(s, pc.dst)))), t, Reclaim(pc.src, pc.a, Back))
  }

  /** The mapping's slots now name dst, with the references they carry. */
  function DoMgSwitch(s: State, t: Task, pc: Pc): State
    requires pc.Move?
  {
    var y := Fo(s, pc.dst);
    var s1 := SetF(s, pc.dst, y.(mapped := true, count := y.count + y.nr));
    Go(SetF(s1, pc.src, Fo(s1, pc.src).(mapped := false)), t, pc.(m := Switched))
  }

  function DoMgUnfreeze(s: State, t: Task, pc: Pc): State
    requires pc.Move?
  {
    Go(SetF(s, pc.src, Fo(s, pc.src).(frozen := false, count := 2)), t, pc.(m := Unfrozen))
  }

  function DoMgCopy(s: State, t: Task, pc: Pc): State
    requires pc.Move?
  {
    Go(SetF(s, pc.dst, Fo(s, pc.dst).(bytes := Fo(s, pc.src).bytes)), t, pc.(m := Copied))
  }

  /** folio_attach_private(dst, folio_detach_private(src)). */
  function DoMgPrivate(s: State, t: Task, pc: Pc): State
    requires pc.Move?
  {
    var s1 := SetF(s, pc.src, Detach(Fo(s, pc.src)));
    var y := Fo(s1, pc.dst);
    Go(SetF(s1, pc.dst, y.(priv := Names(pc.a), count := y.count + 1)), t, pc.(m := Moved))
  }

  /** The first entry that names src is pointed at dst; with none, VERIFY(found) fails. */
  function DoMgRepoint(s: State, t: Task, pc: Pc): State
    requires pc.Move?
  {
    var x := Ab(s, pc.a);
    var k := FirstNaming(x.sg, pc.src, 0);
    if k.None? then Go(s, t, VerifyFailed)
    else
      var s1 := SetA(s, pc.a, x.(sg := x.sg[k.value := pc.dst]));
      var s2 := SetF(s1, pc.src, Fo(s1, pc.src).(home := None));
      Go(SetF(s2, pc.dst, Fo(s2, pc.dst).(home := Some(Entry(pc.a, k.value)))), t, pc.(m := Done))
  }

  // ----- runs -----

  datatype Step = Step(task: Task, act: Action)

  function Run(s: State, run: seq<Step>): State
    decreases |run|
  {
    if run == [] then s
    else
      var n := |run| - 1;
      Do(Run(s, run[..n]), run[n].task, run[n].act)
  }

  ghost predicate Legal(s: State, run: seq<Step>, strict: bool)
    decreases |run|
  {
    run == [] ||
    (var n := |run| - 1;
     Legal(s, run[..n], strict) && Can(Run(s, run[..n]), run[n].task, run[n].act, strict))
  }
}
