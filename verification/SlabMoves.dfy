module SlabMoves {
  /**
   Which objects a pass over a slab vacates, object by object, and what follows: where memory is there and owners agree
   and free nothing meanwhile, the slab is emptied and goes back.
   */
  import opened SlabSpec

  // ----- one object, one round -----

  /** The loop comes to its `i`th round, and gets memory in it. */
  predicate Reached(rounds: seq<Round>, i: nat) {
    i < |rounds| && forall k :: 0 <= k <= i ==> !rounds[k].memory.NoMemory?
  }

  /** The slab at the time of the callback of the `i`th round. */
  function AtCall(h: Hold, live: seq<int>, rounds: seq<Round>, i: nat): View
    requires i < |live| && i < |rounds|
  {
    Owners(Ready(Vacated(h, live[..i], rounds[..i]), rounds[i]).v, rounds[i].during)
  }

  /** The `i`th round is reached, the callback agrees, and an owner has the object when it is called. */
  predicate Moves(h: Hold, live: seq<int>, rounds: seq<Round>, i: nat)
    requires i < |live|
  {
    Reached(rounds, i) && rounds[i].agrees &&
    HeldOn(AtCall(h, live, rounds, i), live[i])
  }

  predicate HeldOn(v: View, o: int) { 0 <= o < |v.tags| && v.tags[o] == Held }

  ghost predicate Loop(h: Hold, live: seq<int>) {
    && Kept(h) && Settled(h.v) && h.chain != [] && h.hand == -1
    && Distinct(live) && forall i :: 0 <= i < |live| ==> live[i] >= 0
  }

  lemma LoopOn(h: Hold, live: seq<int>, r: Round)
    requires Loop(h, live) && live != []
    ensures Loop(Tried(h, live[0], r).0, live[1..])
  {
    TriedKeeps(h, live[0], r);
  }

  /** An object is vacated before, or in its round. */
  lemma {:induction false} VacatedOnly(h: Hold, live: seq<int>, rounds: seq<Round>, x: int)
    requires Loop(h, live)
    ensures x in h.vac ==> x in Vacated(h, live, rounds).vac
    ensures x in Vacated(h, live, rounds).vac ==> x in h.vac || x in live
    decreases |live|
  {
    if live != [] {
      var (h', out) := Tried(h, live[0], First(rounds));
      TriedKeeps(h, live[0], First(rounds));
      if !out {
        LoopOn(h, live, First(rounds));
        VacatedOnly(h', live[1..], Rest(rounds), x);
      }
    }
  }

  /** An owner's step takes nothing from the pass. */
  lemma PassStays(h: Hold, o: int, steps: seq<OwnerStep>)
    requires Kept(h) && Settled(h.v) && h.chain != [] && o in h.chain
    ensures 0 <= o < |Owners(h.v, steps).tags| && Owners(h.v, steps).tags[o] == Pass
  {
    HoldKeeps(h, steps);
  }

  lemma CalledIff(h: Hold, o: int, r: Round)
    requires Kept(h) && Settled(h.v) && h.chain != [] && o >= 0
    ensures Called(h, o, r).1 <==> r.agrees && HeldOn(Owners(h.v, r.during), o)
  {
    HoldKeeps(h, r.during);
    if o in h.chain { PassStays(h, o, r.during); }
  }

  /** One round vacates its object exactly as said. */
  lemma TriedIff(h: Hold, o: int, r: Round)
    requires Kept(h) && Settled(h.v) && h.chain != [] && h.hand == -1 && o >= 0 && o !in h.vac
    ensures o in Tried(h, o, r).0.vac <==>
              !r.memory.NoMemory? && r.agrees && HeldOn(Owners(Ready(h, r).v, r.during), o)
  {
    if !r.memory.NoMemory? {
      ReadyKeeps(h, r);
      CalledIff(Ready(h, r), o, r);
      CalledKeeps(Ready(h, r), o, r);
    }
  }

  lemma FirstMoves(h: Hold, live: seq<int>, rounds: seq<Round>)
    requires Loop(h, live) && live != [] && live[0] !in h.vac
    ensures live[0] in Tried(h, live[0], First(rounds)).0.vac <==> Moves(h, live, rounds, 0)
  {
    TriedIff(h, live[0], First(rounds));
    if rounds != [] { assert rounds[..0] == [] && live[..0] == [] && Vacated(h, [], []) == h; }
  }

  /** What happens in later rounds is the same seen from the second. */
  lemma LaterMoves(h: Hold, live: seq<int>, rounds: seq<Round>, i: nat)
    requires 0 < i < |live| && rounds != [] && !rounds[0].memory.NoMemory?
    ensures Moves(h, live, rounds, i) <==> Moves(Tried(h, live[0], rounds[0]).0, live[1..], rounds[1..], i - 1)
  {
    if Reached(rounds, i) {
      assert forall k :: 0 <= k <= i - 1 ==> rounds[1..][k] == rounds[k + 1];
      assert live[..i][1..] == live[1..][..i - 1] && rounds[..i][1..] == rounds[1..][..i - 1];
      assert Reached(rounds[1..], i - 1);
    } else if Reached(rounds[1..], i - 1) {
      forall k | 0 <= k <= i ensures k < |rounds| && !rounds[k].memory.NoMemory? {
        if k > 0 { assert rounds[k] == rounds[1..][k - 1]; }
      }
    }
  }

  lemma FirstStays(h: Hold, live: seq<int>, rounds: seq<Round>)
    requires Loop(h, live) && live != []
    ensures var h' := Tried(h, live[0], First(rounds)).0;
            live[0] in h'.vac <==> live[0] in Vacated(h', live[1..], Rest(rounds)).vac
  {
    LoopOn(h, live, First(rounds));
    VacatedOnly(Tried(h, live[0], First(rounds)).0, live[1..], Rest(rounds), live[0]);
  }

  /** An object later in the loop, its own round still to come. */
  lemma LaterStarts(h: Hold, live: seq<int>, rounds: seq<Round>, i: nat)
    requires Loop(h, live) && 0 < i < |live| && live[i] !in h.vac
    ensures var (h', out) := Tried(h, live[0], First(rounds));
            && Loop(h', live[1..]) && live[i] !in h'.vac && live[1..][i - 1] == live[i]
            && (out <==> rounds == [] || rounds[0].memory.NoMemory?)
  {
    LoopOn(h, live, First(rounds));
    TriedKeeps(h, live[0], First(rounds));
  }

  lemma {:induction false} VacatedIff(h: Hold, live: seq<int>, rounds: seq<Round>, i: nat)
    requires Loop(h, live) && i < |live| && live[i] !in h.vac
    ensures live[i] in Vacated(h, live, rounds).vac <==> Moves(h, live, rounds, i)
    decreases |live|
  {
    if i == 0 {
      FirstMoves(h, live, rounds);
      FirstStays(h, live, rounds);
    } else {
      LaterStarts(h, live, rounds, i);
      if rounds == [] || rounds[0].memory.NoMemory? {
        assert !Reached(rounds, i);
      } else {
        LaterMoves(h, live, rounds, i);
        VacatedIff(Tried(h, live[0], rounds[0]).0, live[1..], rounds[1..], i - 1);
      }
    }
  }

  // ----- the whole pass -----

  /** A slab the pass comes to, with something free. */
  ghost predicate Begins(v: View) {
    Fit(v) && !v.discarded && v.free != [] && forall x :: 0 <= x < |v.tags| ==> v.tags[x] != Pass
  }

  /** The objects the owners have, in address order. */
  function InUseOf(tags: seq<Tag>): seq<int> {
    if tags == [] then []
    else
      var n := |tags| - 1;
      if tags[n] == Held then InUseOf(tags[..n]) + [n] else InUseOf(tags[..n])
  }

  /** The pass with everything free claimed. */
  function Start(v: View): Hold { Hold(Claimed(v), v.free, [], -1) }

  lemma {:induction false} LiveAreInUse(tags: seq<Tag>, was: seq<Tag>)
    requires |tags| == |was| && forall x :: 0 <= x < |tags| ==> (tags[x] == Pass <==> was[x] != Held)
    ensures Live(tags) == InUseOf(was)
    decreases |tags|
  {
    if tags != [] {
      var n := |tags| - 1;
      forall x | 0 <= x < n ensures tags[..n][x] == tags[x] && was[..n][x] == was[x] { }
      LiveAreInUse(tags[..n], was[..n]);
    }
  }

  lemma StartLoops(v: View)
    requires Begins(v)
    ensures Loop(Start(v), InUseOf(v.tags)) && Live(Claimed(v).tags) == InUseOf(v.tags) && Claimed(v).free == []
    ensures forall x :: x in InUseOf(v.tags) <==> 0 <= x < |v.tags| && v.tags[x] == Held
    ensures forall x :: 0 <= x < |v.tags| ==> Claimed(v).tags[x] == if v.tags[x] == Held then Held else Pass
    ensures |InUseOf(v.tags)| == |v.tags| - |v.free|
  {
    LookKeeps(Hold(v, [], [], -1));
    assert v.free + [] == v.free;
    forall x | 0 <= x < |v.tags| ensures Claimed(v).tags[x] == if v.tags[x] == Held then Held else Pass {
      MarkWhere(v.tags, v.free, Pass, x);
    }
    LiveAreInUse(Claimed(v).tags, v.tags);
    LiveAre(Claimed(v).tags);
    ExactCount(Claimed(v).tags, v.free, Pass);
    var l := Live(Claimed(v).tags);
    forall i | 0 <= i < |l| ensures l[i] >= 0 { assert l[i] in l; }
  }

  /** An object is vacated if and only if its round is reached, with memory in it and in all before it, the callback
      agrees, and an owner still has the object when it is called. */
  lemma EvacuatedMoves(v: View, env: Env, i: nat)
    requires Begins(v) && i < |InUseOf(v.tags)|
    ensures InUseOf(v.tags)[i] in Evacuated(v, env).vacated <==> Moves(Start(v), InUseOf(v.tags), env.rounds, i)
  {
    StartLoops(v);
    VacatedIff(Start(v), InUseOf(v.tags), env.rounds, i);
  }

  /** And nothing else is, and nothing twice. */
  lemma EvacuatedOnly(v: View, env: Env)
    requires Begins(v)
    ensures var vac := Evacuated(v, env).vacated; Distinct(vac) && forall x :: x in vac ==> x in InUseOf(v.tags)
  {
    StartLoops(v);
    VacatedKeeps(Start(v), InUseOf(v.tags), env.rounds);
    forall x | x in Evacuated(v, env).vacated ensures x in InUseOf(v.tags) {
      VacatedOnly(Start(v), InUseOf(v.tags), env.rounds, x);
    }
  }

  // ----- what an owner keeps -----

  predicate Spares(steps: seq<OwnerStep>, o: int) {
    forall k :: 0 <= k < |steps| ==> steps[k].Takes? || steps[k].o != o
  }

  lemma {:induction false} OwnersSpare(v: View, steps: seq<OwnerStep>, o: int)
    requires Fit(v) && (Settled(v) || Waiting(v)) && HeldOn(v, o) && Spares(steps, o)
    ensures HeldOn(Owners(v, steps), o)
  {
    if steps != [] {
      var n := |steps| - 1;
      OwnersSpare(v, steps[..n], o);
      OwnersKeep(v, steps[..n]);
      OneSpares(Owners(v, steps[..n]), steps[n], o);
    }
  }

  lemma OneSpares(v: View, st: OwnerStep, o: int)
    requires Fit(v) && (Settled(v) || Waiting(v)) && HeldOn(v, o) && (st.Takes? || st.o != o)
    ensures HeldOn(Owner(v, st), o)
  {
    if st.Frees? {
      if !v.discarded && 0 <= st.o < |v.tags| && v.tags[st.o] == Held { FreedKeeps(v, [st.o], Held, st.crowded); }
    }
  }

  lemma LookSpares(h: Hold, o: int)
    requires Kept(h) && HeldOn(h.v, o)
    ensures HeldOn(Look(h).v, o)
  {
    if h.v.free != [] { MarkWhere(h.v.tags, h.v.free, Pass, o); }
  }

  lemma ReadySpares(h: Hold, r: Round, o: int)
    requires Kept(h) && Settled(h.v) && h.chain != [] && h.hand == -1 && HeldOn(h.v, o)
    requires Spares(r.before, o) && Spares(r.between, o)
    ensures HeldOn(Ready(h, r).v, o)
  {
    OwnersSpare(h.v, r.before, o);
    HoldKeeps(h, r.before);
    var h0 := h.(v := Owners(h.v, r.before));
    GrabbedKeeps(h0, r.memory);
    var h1 := Grabbed(h0, r.memory);
    assert HeldOn(h1.v, o);
    OwnersSpare(h1.v, r.between, o);
    HoldKeeps(h1, r.between);
    LookSpares(h1.(v := Owners(h1.v, r.between)), o);
  }

  /** No owner frees the object in the round. */
  predicate RoundSpares(r: Round, o: int) { Spares(r.before, o) && Spares(r.between, o) && Spares(r.during, o) }

  lemma PutBackSpares(h: Hold, crowded: bool, o: int)
    requires Kept(h) && Settled(h.v) && h.chain != [] && HeldOn(h.v, o)
    ensures HeldOn(PutBack(h, crowded).v, o)
  {
    if h.hand >= 0 { FreedKeeps(h.v, [h.hand], Pass, crowded); }
  }

  /** A round for another object leaves this one with its owner. */
  lemma TriedSpares(h: Hold, p: nat, r: Round, o: int)
    requires Kept(h) && Settled(h.v) && h.chain != [] && h.hand == -1 && HeldOn(h.v, o) && p != o && RoundSpares(r, o)
    ensures HeldOn(Tried(h, p, r).0.v, o)
  {
    if r.memory.NoMemory? {
      OwnersSpare(h.v, r.before, o);
    } else {
      ReadySpares(h, r, o);
      ReadyKeeps(h, r);
      var h1 := Ready(h, r);
      OwnersSpare(h1.v, r.during, o);
      HoldKeeps(h1, r.during);
      CalledKeeps(h1, p, r);
      var (h2, done) := Called(h1, p, r);
      assert HeldOn(h2.v, o);
      if !done { PutBackSpares(h2, r.crowded, o); }
    }
  }

  lemma {:induction false} VacatedSpares(h: Hold, live: seq<int>, rounds: seq<Round>, o: int)
    requires Loop(h, live) && HeldOn(h.v, o) && o !in live
    requires forall k :: 0 <= k < |rounds| ==> RoundSpares(rounds[k], o)
    ensures HeldOn(Vacated(h, live, rounds).v, o)
    decreases |live|
  {
    if live != [] {
      var r := First(rounds);
      assert RoundSpares(r, o);
      TriedSpares(h, live[0], r, o);
      LoopOn(h, live, r);
      if !Tried(h, live[0], r).1 { VacatedSpares(Tried(h, live[0], r).0, live[1..], Rest(rounds), o); }
    }
  }

  /** So an object whose owner keeps it up to its round is moved, if the round is reached and the callback agrees. */
  lemma KeptIsMoved(v: View, env: Env, i: nat)
    requires Begins(v) && i < |InUseOf(v.tags)| && Reached(env.rounds, i) && env.rounds[i].agrees
    requires forall k :: 0 <= k <= i ==> RoundSpares(env.rounds[k], InUseOf(v.tags)[i])
    ensures InUseOf(v.tags)[i] in Evacuated(v, env).vacated
  {
    var live, rounds := InUseOf(v.tags), env.rounds;
    var o, h := live[i], Start(v);
    StartLoops(v);
    assert o in live && HeldOn(h.v, o);
    var before, past := live[..i], rounds[..i];
    assert o !in before;
    VacatedSpares(h, before, past, o);
    VacatedKeeps(h, before, past);
    var h1 := Vacated(h, before, past);
    assert h1.chain != [];
    ReadySpares(h1, rounds[i], o);
    ReadyKeeps(h1, rounds[i]);
    OwnersSpare(Ready(h1, rounds[i]).v, rounds[i].during, o);
    EvacuatedMoves(v, env, i);
  }

  lemma {:induction false} SameLength(a: seq<int>, b: seq<int>)
    requires Distinct(a) && Distinct(b) && forall x :: x in a <==> x in b
    ensures |a| == |b|
    decreases |a|
  {
    if b != [] {
      var last := b[|b| - 1];
      assert last in b;
      assert last in a;
    }
    if a != [] {
      var first := a[0];
      assert first in a;
      assert first in b;
      var k :| 0 <= k < |b| && b[k] == first;
      var b' := b[..k] + b[k + 1..];
      forall x ensures x in a[1..] <==> x in b' {
        assert x in a <==> x == a[0] || x in a[1..];
        assert x in b <==> x in b[..k] || x == b[k] || x in b[k + 1..];
      }
      SameLength(a[1..], b');
    }
  }

  /** Memory in every round, callbacks that agree and owners that free nothing: every object in use is vacated, and
      the slab is reported emptied. */
  lemma WillingIsEmptied(v: View, env: Env)
    requires Begins(v) && |env.rounds| >= |InUseOf(v.tags)|
    requires forall k :: 0 <= k < |InUseOf(v.tags)| ==>
               var r := env.rounds[k];
               !r.memory.NoMemory? && r.agrees && forall o :: RoundSpares(r, o)
    ensures Evacuated(v, env).emptied && |Evacuated(v, env).vacated| == |v.tags| - |v.free|
    ensures forall x :: x in Evacuated(v, env).vacated <==> 0 <= x < |v.tags| && v.tags[x] == Held
  {
    var live, vac := InUseOf(v.tags), Evacuated(v, env).vacated;
    StartLoops(v);
    EvacuatedOnly(v, env);
    forall x | x in live ensures x in vac {
      var i :| 0 <= i < |live| && live[i] == x;
      KeptIsMoved(v, env, i);
    }
    SameLength(vac, live);
  }

  /** What is reported emptied goes back whole, unless an owner is quicker at the end: all of it is free, and it is
      discarded if the node has enough slabs. */
  lemma EmptiedGoesBack(v: View, env: Env)
    requires Begins(v) && Evacuated(v, env).emptied && env.after == []
    ensures var v' := Evacuated(v, env).v;
            && (forall x :: 0 <= x < |v.tags| ==> x < |v'.tags| && v'.tags[x] == Free)
            && (v'.discarded <==> env.lastCrowded) && (v'.listed <==> !env.lastCrowded)
  {
    EmptyingKeeps(v, env.rounds);
    EmptiedIff(v, env);
    var h := Emptying(v, env.rounds);
    forall x: nat | x < |v.tags| ensures x in h.chain || x in h.vac { EmptiedHasAll(v, env, x); }
    BulkListed(h, env.bulkCrowded);
    LastWhole(Bulk(h, env.bulkCrowded), h.chain, env.lastCrowded);
  }

  /** The vacated objects are back, the claimed ones still the pass's. */
  lemma BulkListed(h: Hold, crowded: bool)
    requires Kept(h) && Settled(h.v) && h.hand == -1 && h.chain != [] && h.v.free == []
    requires forall x: nat :: x < |h.v.tags| ==> x in h.chain || x in h.vac
    ensures var b := Bulk(h, crowded);
            && Kept(Hold(b, h.chain, [], -1)) && Settled(b) && |b.tags| == |h.v.tags|
            && forall x: nat :: x < |b.tags| ==> x in h.chain || b.tags[x] == Free
  {
    BulkKeeps(h, crowded);
  }

  /** The last free makes the slab whole. */
  lemma LastWhole(b: View, chain: seq<int>, crowded: bool)
    requires Kept(Hold(b, chain, [], -1)) && Settled(b) && chain != []
    requires forall x: nat :: x < |b.tags| ==> x in chain || b.tags[x] == Free
    ensures var v := Freed(b, chain, crowded);
            && |v.tags| == |b.tags| && (forall x :: 0 <= x < |v.tags| ==> v.tags[x] == Free)
            && (v.discarded <==> crowded) && (v.listed <==> !crowded)
  {
    FreedKeeps(b, chain, Pass, crowded);
    WholeCount(Freed(b, chain, crowded));
  }

  lemma WholeCount(v: View)
    requires Fit(v) && forall x :: 0 <= x < |v.tags| ==> v.tags[x] == Free
    ensures |v.free| == |v.tags|
  {
    CountNone(v.tags, Held);
    CountNone(v.tags, Pass);
    CountAll(v.tags);
    ExactCount(v.tags, v.free, Free);
  }
}
