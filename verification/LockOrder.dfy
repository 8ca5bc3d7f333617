module LockOrder {
  /**
   The lock order of the ARC folio protocol: the owner's hash lock, then abd_mtx, then a folio lock.

   Every task runs one protocol function at a time, at a program point that says which locks the
   function has taken and whether it is waiting for one. On top of that, from any point that can
   allocate memory, and from the kernel's own page scans, it may be in reclaim or migration: those
   hold whatever locks they took by trying, in any order and number, and never wait for one. A
   migration that has frozen a folio does nothing until it unfreezes it, and whoever grabs a
   chunk spins on a frozen folio until then.
   */

  type Task = nat

  datatype Lock = Owner(hdr: nat) | Mutex(abd: nat) | Page(folio: nat)

  /** Where a task stands in the protocol function it runs; the fields are what the function holds, or,
      at a point named after waiting, wants next.

      - `ArcWants`, `Arc`: mutex_enter on a header's hash lock, and the ARC's code under it
      - `JoinWants`, `Joins`, `Adds`: abd_lru_join waiting for abd_mtx, in its loop, and with the
        chunk locked by filemap_add_folio, which may allocate
      - `RebindWants`, `Rebinds`: abd_lru_rebind
      - `MoveHas`, `MoveWants`, `MoveRebinds`: arc_hdr_move with the hash lock it only tried, and abd_lru_rebind inside
        it
      - `Touches`: abd_lru_touch, which holds references but takes no lock
      - `FreeWants`, `Frees`, `ChunkWants`, `Chunk`: abd_lru_free_chunks outside reclaim; the hash
        lock is held in some callers and not in others
      - `ScanWants`: a kernel path waiting for a folio's lock with no lock of the protocol held */
  datatype Pc =
    | Rest
    | ArcWants(o: nat) | Arc(o: nat)
    | JoinWants(o: nat, a: nat) | Joins(o: nat, a: nat) | Adds(o: nat, a: nat, f: nat)
    | RebindWants(o: nat, a: nat) | Rebinds(o: nat, a: nat)
    | MoveHas(o: nat) | MoveWants(o: nat, a: nat) | MoveRebinds(o: nat, a: nat)
    | Touches(o: nat)
    | FreeWants(h: set<nat>, a: nat) | Frees(h: set<nat>, a: nat)
    | ChunkWants(h: set<nat>, a: nat, f: nat) | Chunk(h: set<nat>, a: nat, f: nat)
    | ScanWants(f: nat)

  /** `tried`: the locks reclaim or migration took from here; `spins`: the folio whose count it, or
      the function itself, waits to see thawed; `froze`: the folio a migration has frozen. */
  datatype Thread = Thread(at: Pc, tried: set<Lock>, spins: set<nat>, froze: set<nat>)

  type State = map<Task, Thread>

  const IDLE := Thread(Rest, {}, {}, {})

  function Of(s: State, t: Task): Thread { if t in s then s[t] else IDLE }

  function Owners(h: set<nat>): set<Lock> { set o | o in h :: Owner(o) }

  /** The locks the function itself holds. */
  function Own(pc: Pc): set<Lock> {
    match pc
    case Rest => {}
    case ArcWants(_) => {}
    case Arc(o) => {Owner(o)}
    case JoinWants(o, _) => {Owner(o)}
    case Joins(o, a) => {Owner(o), Mutex(a)}
    case Adds(o, a, f) => {Owner(o), Mutex(a), Page(f)}
    case RebindWants(o, _) => {Owner(o)}
    case Rebinds(o, a) => {Owner(o), Mutex(a)}
    case MoveHas(o) => {Owner(o)}
    case MoveWants(o, _) => {Owner(o)}
    case MoveRebinds(o, a) => {Owner(o), Mutex(a)}
    case Touches(o) => {Owner(o)}
    case FreeWants(h, _) => Owners(h)
    case Frees(h, a) => Owners(h) + {Mutex(a)}
    case ChunkWants(h, a, _) => Owners(h) + {Mutex(a)}
    case Chunk(h, a, f) => Owners(h) + {Mutex(a), Page(f)}
    case ScanWants(_) => {}
  }

  /** The lock a function blocks on. */
  function Wants(pc: Pc): set<Lock> {
    match pc
    case ArcWants(o) => {Owner(o)}
    case JoinWants(_, a) => {Mutex(a)}
    case RebindWants(_, a) => {Mutex(a)}
    case MoveWants(_, a) => {Mutex(a)}
    case FreeWants(_, a) => {Mutex(a)}
    case ChunkWants(_, _, f) => {Page(f)}
    case ScanWants(f) => {Page(f)}
    case _ => {}
  }

  function Held(th: Thread): set<Lock> { Own(th.at) + th.tried }

  ghost predicate Free(s: State, l: Lock) { forall u: Task :: l !in Held(Of(s, u)) }

  // ----- steps -----

  /** What the function does next, given the lock it wants; `now` is its next program point. */
  datatype Move =
    | Call(now: Pc)          // start waiting for a lock, or enter or leave a section that waits for none
    | Take                   // the lock waited for is free
    | TryOwner(o: nat)       // arc_hdr_move's trylock of the hash lock succeeds
    | Lock(f: nat)           // filemap_add_folio locks a folio nobody else can have locked
    | Try(l: Lock)           // a trylock of reclaim or migration that succeeds
    | Drop(l: Lock)
    | Spin(f: nat) | Thaw(f: nat)
    | Freeze(f: nat) | Unfreeze(f: nat)

  /** The control flow of each function between its lock operations. */
  predicate Flows(pc: Pc, now: Pc) {
    match pc
    case Rest => now.ArcWants? || (now.FreeWants? && now.h == {}) || now.ScanWants?
    case Arc(o) =>
      now.Rest? || (now.JoinWants? && now.o == o) || (now.RebindWants? && now.o == o) || now == Touches(o) ||
      (now.FreeWants? && now.h == {o})
    case Joins(o, a) => now == Arc(o)
    case Adds(o, a, f) => now == Joins(o, a)
    case Rebinds(o, a) => now == Arc(o)
    case MoveHas(o) => now.Rest? || (now.MoveWants? && now.o == o)
    case MoveRebinds(o, a) => now == MoveHas(o)
    case Touches(o) => now == Arc(o)
    case Frees(h, a) =>
      (now.ChunkWants? && now.h == h && now.a == a) || (h == {} && now.Rest?) ||
      (now.Arc? && h == {now.o})
    case Chunk(h, a, f) => now == Frees(h, a)
    case _ => false
  }

  /** Where a function goes once it has the lock it waited for. */
  function Taken(pc: Pc): Pc {
    match pc
    case ArcWants(o) => Arc(o)
    case JoinWants(o, a) => Joins(o, a)
    case RebindWants(o, a) => Rebinds(o, a)
    case MoveWants(o, a) => MoveRebinds(o, a)
    case FreeWants(h, a) => Frees(h, a)
    case ChunkWants(h, a, f) => Chunk(h, a, f)
    case _ => pc
  }

  /** Nothing of reclaim or migration is under way in this task. */
  predicate Plain(th: Thread) { th.tried == {} && th.spins == {} && th.froze == {} }

  /** The function may grab a chunk here: a reference, no lock. */
  predicate Grabs(pc: Pc) { pc.Touches? || pc.Frees? }

  ghost predicate Can(s: State, t: Task, m: Move) {
    var th := Of(s, t);
    match m
    case Call(now) => Plain(th) && Flows(th.at, now)
    case Take => Wants(th.at) != {} && forall l :: l in Wants(th.at) ==> Free(s, l)
    case TryOwner(o) => Plain(th) && th.at.Rest? && Free(s, Owner(o))
    case Lock(f) => Plain(th) && th.at.Joins? && Free(s, Page(f))
    case Try(l) => Wants(th.at) == {} && th.spins == {} && th.froze == {} && Free(s, l)
    case Drop(l) => l in th.tried && th.froze == {}
    case Spin(f) => Wants(th.at) == {} && th.spins == {} && th.froze == {} && (th.tried != {} || Grabs(th.at))
    case Thaw(f) => f in th.spins && forall u: Task :: f !in Of(s, u).froze
    case Freeze(f) => Page(f) in th.tried && th.spins == {} && Wants(th.at) == {} && th.froze == {}
    case Unfreeze(f) => f in th.froze
  }

  function Do(s: State, t: Task, m: Move): State {
    var th := Of(s, t);
    match m
    case Call(now) => s[t := th.(at := now)]
    case Take =>
      if th.at.ScanWants? then s[t := th.(at := Rest, tried := {Page(th.at.f)})] else s[t := th.(at := Taken(th.at))]
    case TryOwner(o) => s[t := th.(at := MoveHas(o))]
    case Lock(f) => if th.at.Joins? then s[t := th.(at := Adds(th.at.o, th.at.a, f))] else s
    case Try(l) => s[t := th.(tried := th.tried + {l})]
    case Drop(l) => s[t := th.(tried := th.tried - {l})]
    case Spin(f) => s[t := th.(spins := {f})]
    case Thaw(f) => s[t := th.(spins := th.spins - {f})]
    case Freeze(f) => s[t := th.(froze := {f})]
    case Unfreeze(f) => s[t := th.(froze := {})]
  }

  datatype Step = Step(task: Task, move: Move)

  ghost predicate Reaches(run: seq<Step>, s: State)
    decreases |run|
  {
    if run == [] then s == map[]
    else
      var n := |run| - 1;
      exists s0: State :: Reaches(run[..n], s0) && Can(s0, run[n].task, run[n].move) &&
        s == Do(s0, run[n].task, run[n].move)
  }

  // ----- what every reachable state keeps -----

  /** A task that waits for a lock has nothing of reclaim or migration under way, and a frozen folio's
      migrator does not wait at all. */
  predicate WaitsClean(th: Thread) {
    && (Wants(th.at) != {} ==> Plain(th))
    && (th.froze != {} ==> th.spins == {})
  }

  ghost predicate Apart(s: State, t: Task, u: Task) { t != u ==> Held(Of(s, t)) !! Held(Of(s, u)) }

  ghost predicate Inv(s: State) {
    && (forall t: Task :: WaitsClean(Of(s, t)))
    && (forall t: Task, u: Task :: Apart(s, t, u))
  }

  /** What a flow from one program point to another, or a lock waited for, adds to what the function holds. */
  lemma FlowHolds(pc: Pc, now: Pc, l: Lock)
    requires l in Own(now) && l !in Own(pc)
    ensures !Flows(pc, now)
    ensures now == Taken(pc) ==> l in Wants(pc)
  {
  }

  lemma StepAdds(s: State, t: Task, m: Move, l: Lock)
    requires Can(s, t, m) && l in Held(Of(Do(s, t, m), t)) && l !in Held(Of(s, t))
    ensures Free(s, l)
  {
    var pc, now := Of(s, t).at, Of(Do(s, t, m), t).at;
    if l in Own(now) && l !in Own(pc) { FlowHolds(pc, now, l); }
  }

  lemma StepClean(s: State, t: Task, m: Move)
    requires WaitsClean(Of(s, t)) && Can(s, t, m)
    ensures WaitsClean(Of(Do(s, t, m), t))
  {
  }

  lemma StepHolds(s: State, t: Task, m: Move)
    requires Inv(s) && Can(s, t, m)
    ensures WaitsClean(Of(Do(s, t, m), t))
    ensures forall u: Task :: u != t ==> Held(Of(Do(s, t, m), t)) !! Held(Of(s, u))
  {
    var now := Of(Do(s, t, m), t);
    assert WaitsClean(Of(s, t));
    StepClean(s, t, m);
    forall u: Task, l: Lock | u != t && l in Held(now) ensures l !in Held(Of(s, u)) {
      assert Apart(s, t, u);
      if l !in Held(Of(s, t)) { StepAdds(s, t, m, l); }
    }
  }

  lemma StepKeeps(s: State, t: Task, m: Move)
    requires Inv(s) && Can(s, t, m)
    ensures Inv(Do(s, t, m))
  {
    var s' := Do(s, t, m);
    StepHolds(s, t, m);
    forall u: Task ensures WaitsClean(Of(s', u)) { assert u != t ==> Of(s', u) == Of(s, u) && WaitsClean(Of(s, u)); }
    forall u: Task, v: Task ensures Apart(s', u, v) {
      assert Apart(s, u, v);
      assert u != t ==> Of(s', u) == Of(s, u);
      assert v != t ==> Of(s', v) == Of(s, v);
    }
  }

  lemma {:induction false} RunKeeps(run: seq<Step>, s: State)
    requires Reaches(run, s)
    ensures Inv(s)
    decreases |run|
  {
    if run != [] {
      var n := |run| - 1;
      var s0: State :| Reaches(run[..n], s0) && Can(s0, run[n].task, run[n].move) &&
        s == Do(s0, run[n].task, run[n].move);
      RunKeeps(run[..n], s0);
      StepKeeps(s0, run[n].task, run[n].move);
    }
  }

  // ----- the waiting order -----

  /** Two tasks never hold the same lock; a task that blocks on a folio lock holds no other; one that
      holds a folio lock, in reclaim, migration or an allocation inside a join, blocks on nothing. */
  lemma LockRules(run: seq<Step>, s: State, t: Task, u: Task)
    requires Reaches(run, s)
    ensures t != u ==> Held(Of(s, t)) !! Held(Of(s, u))
    ensures (exists l :: l in Held(Of(s, t)) && l.Page?) ==> Wants(Of(s, t).at) == {}
    ensures Of(s, t).tried != {} ==> Wants(Of(s, t).at) == {}
  {
    RunKeeps(run, s);
    assert WaitsClean(Of(s, t)) && Apart(s, t, u);
  }

  ghost predicate WaitsFor(s: State, t: Task, u: Task) {
    (exists l :: l in Wants(Of(s, t).at) && l in Held(Of(s, u))) ||
    (exists f :: f in Of(s, t).spins && f in Of(s, u).froze)
  }

  /** How far out in the lock order a task waits. */
  function Rank(th: Thread): nat {
    if th.at.ArcWants? then 4
    else if th.at.JoinWants? || th.at.RebindWants? || th.at.MoveWants? || th.at.FreeWants? then 3
    else if th.at.ChunkWants? || th.at.ScanWants? then 2
    else if th.spins != {} then 1
    else 0
  }

  /** Whoever is waited for waits, if at all, further in. */
  lemma WaitDescends(s: State, t: Task, u: Task)
    requires Inv(s) && WaitsFor(s, t, u)
    ensures Rank(Of(s, u)) < Rank(Of(s, t))
  {
    assert WaitsClean(Of(s, t)) && WaitsClean(Of(s, u));
  }

  ghost predicate Chain(s: State, p: seq<Task>) {
    |p| > 0 && forall i :: 0 <= i < |p| - 1 ==> WaitsFor(s, p[i], p[i + 1])
  }

  lemma {:induction false} ChainDescends(s: State, p: seq<Task>)
    requires Inv(s) && Chain(s, p)
    ensures Rank(Of(s, p[|p| - 1])) + |p| - 1 <= Rank(Of(s, p[0]))
    decreases |p|
  {
    if |p| > 1 {
      var q := p[..|p| - 1];
      forall i | 0 <= i < |q| - 1 ensures WaitsFor(s, q[i], q[i + 1]) { assert WaitsFor(s, p[i], p[i + 1]); }
      ChainDescends(s, q);
      assert WaitsFor(s, p[|p| - 2], p[|p| - 1]);
      WaitDescends(s, p[|p| - 2], p[|p| - 1]);
    }
  }

  /** No reachable state has a cycle of waiting tasks, a task that waits for itself included, and no
      chain of tasks each waiting for the next is longer than the four levels there are. */
  lemma NoCycle(run: seq<Step>, s: State, p: seq<Task>)
    requires Reaches(run, s) && Chain(s, p)
    ensures |p| > 1 ==> p[0] != p[|p| - 1]
    ensures |p| <= 5
  {
    RunKeeps(run, s);
    ChainDescends(s, p);
  }

  ghost predicate Blocked(s: State, t: Task) { exists u: Task :: WaitsFor(s, t, u) }

  // ----- the move callback, which may not block -----

  /** In the callback, under the RCU read side. */
  predicate InCallback(pc: Pc) { pc.MoveHas? || pc.MoveWants? || pc.MoveRebinds? }

  /** The callback is blocked if and only if it has come to rebind a buffer whose mutex another task holds. */
  lemma CallbackBlockedIff(run: seq<Step>, s: State, t: Task)
    requires Reaches(run, s) && InCallback(Of(s, t).at) && Plain(Of(s, t))
    ensures Blocked(s, t) <==>
              Of(s, t).at.MoveWants? && exists u: Task :: u != t && Mutex(Of(s, t).at.a) in Held(Of(s, u))
  {
    RunKeeps(run, s);
    if u: Task :| WaitsFor(s, t, u) {
      assert WaitsClean(Of(s, u));
      assert u != t;
    }
    if Of(s, t).at.MoveWants? {
      if u: Task :| u != t && Mutex(Of(s, t).at.a) in Held(Of(s, u)) {
        assert Mutex(Of(s, t).at.a) in Wants(Of(s, t).at);
        assert WaitsFor(s, t, u);
      }
    }
  }

  lemma Extend(run: seq<Step>, s: State, t: Task, m: Move) returns (more: seq<Step>, s': State)
    requires Reaches(run, s) && Can(s, t, m)
    ensures Reaches(more, s') && s' == Do(s, t, m)
  {
    more, s' := run + [Step(t, m)], Do(s, t, m);
    assert more[..|more| - 1] == run;
  }

  const RECLAIMING := Thread(Rest, {Page(5), Mutex(7)}, {}, {})

  /** Reclaim has locked a folio and taken the mutex of its buffer by trying. */
  lemma ReclaimHolds() returns (run: seq<Step>, s: State)
    ensures Reaches(run, s) && s == map[1 := RECLAIMING]
  {
    run, s := [], map[];
    run, s := Extend(run, s, 1, Call(ScanWants(5)));
    run, s := Extend(run, s, 1, Take);
    assert s[1] == Thread(Rest, {Page(5)}, {}, {});
    run, s := Extend(run, s, 1, Try(Mutex(7)));
    assert s[1] == RECLAIMING;
  }

  lemma CallbackEnters() returns (run: seq<Step>, s: State)
    ensures Reaches(run, s) && s == map[1 := RECLAIMING, 0 := Thread(MoveHas(3), {}, {}, {})]
  {
    run, s := ReclaimHolds();
    run, s := Extend(run, s, 0, TryOwner(3));
  }

  /** It does come to that: reclaim has locked a folio and tried the mutex of its buffer, and now the callback, with the
      hash lock reclaim wanted to try next, waits for it. */
  lemma CallbackWaits() returns (run: seq<Step>, s: State)
    ensures Reaches(run, s) && InCallback(Of(s, 0).at) && WaitsFor(s, 0, 1)
    ensures Held(Of(s, 1)) == {Page(5), Mutex(7)}
  {
    run, s := CallbackEnters();
    run, s := Extend(run, s, 0, Call(MoveWants(3, 7)));
    assert Mutex(7) in Wants(Of(s, 0).at) && Mutex(7) in Held(Of(s, 1));
  }

  /** The function's next step from a point where it waits for nothing. */
  function Leaves(pc: Pc): Pc
    requires Wants(pc) == {}
  {
    match pc
    case Rest => ArcWants(0)
    case Arc(_) => Rest
    case Joins(o, _) => Arc(o)
    case Adds(o, a, _) => Joins(o, a)
    case Rebinds(o, _) => Arc(o)
    case MoveHas(_) => Rest
    case MoveRebinds(o, _) => MoveHas(o)
    case Touches(o) => Arc(o)
    case Frees(h, a) => ChunkWants(h, a, 0)
    case Chunk(h, a, _) => Frees(h, a)
  }

  lemma UnblockedMoves(s: State, t: Task) returns (m: Move)
    requires Inv(s) && !Blocked(s, t)
    ensures Can(s, t, m)
  {
    var th := Of(s, t);
    assert WaitsClean(th);
    if Wants(th.at) != {} {
      forall l | l in Wants(th.at) ensures Free(s, l) {
        forall u: Task ensures l !in Held(Of(s, u)) { assert !WaitsFor(s, t, u); }
      }
      m := Take;
    } else if f :| f in th.spins {
      forall u: Task ensures f !in Of(s, u).froze { assert !WaitsFor(s, t, u); }
      m := Thaw(f);
    } else if f :| f in th.froze {
      m := Unfreeze(f);
    } else if l :| l in th.tried {
      m := Drop(l);
    } else {
      m := Call(Leaves(th.at));
    }
  }

  /** Whoever waits, the chain of waiting tasks that starts with it ends at a task that can take a step. */
  lemma {:induction false} SomebodyMoves(run: seq<Step>, s: State, t: Task) returns (p: seq<Task>, m: Move)
    requires Reaches(run, s)
    ensures Chain(s, p) && p[0] == t && Can(s, p[|p| - 1], m)
    decreases Rank(Of(s, t))
  {
    RunKeeps(run, s);
    if u: Task :| WaitsFor(s, t, u) {
      WaitDescends(s, t, u);
      var q, mq := SomebodyMoves(run, s, u);
      p, m := [t] + q, mq;
      forall i | 0 <= i < |p| - 1 ensures WaitsFor(s, p[i], p[i + 1]) { assert i > 0 ==> p[i] == q[i - 1]; }
    } else {
      p := [t];
      m := UnblockedMoves(s, t);
    }
  }
}
