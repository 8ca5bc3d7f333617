module SlabSpec {
  /**
   What slab_evacuate makes of a slab, as a function of the slab and of what everybody else does meanwhile: who has
   each object, which are free, and whether the slab is on the partial list. SlabPass has the code, on free pointers and
   arrays, and shows that it comes to this.
   */

  // ----- who has an object -----

  datatype Tag = Free | Held | Pass

  ghost predicate Distinct(c: seq<int>) { forall i, j :: 0 <= i < j < |c| ==> c[i] != c[j] }

  function Count(tags: seq<Tag>, t: Tag): nat {
    if tags == [] then 0 else Count(tags[..|tags| - 1], t) + (if tags[|tags| - 1] == t then 1 else 0)
  }

  lemma {:induction false} CountUpdate(tags: seq<Tag>, x: nat, u: Tag, t: Tag)
    requires x < |tags|
    ensures Count(tags[x := u], t) == Count(tags, t) + (if u == t then 1 else 0) - (if tags[x] == t then 1 else 0)
  {
    var n := |tags| - 1;
    if x < n {
      CountUpdate(tags[..n], x, u, t);
      assert tags[x := u][..n] == tags[..n][x := u];
    } else {
      assert tags[x := u][..n] == tags[..n];
    }
  }

  /** The tags after every object of `c` changed hands to `u`. */
  function Mark(tags: seq<Tag>, c: seq<int>, u: Tag): (r: seq<Tag>)
    ensures |r| == |tags|
  {
    if c == [] then tags
    else
      var m := Mark(tags, c[..|c| - 1], u);
      var x := c[|c| - 1];
      if 0 <= x < |tags| then m[x := u] else m
  }

  /** All of `c` are different objects of the slab tagged `t`. */
  ghost predicate AllAre(tags: seq<Tag>, c: seq<int>, t: Tag) {
    Distinct(c) && forall i :: 0 <= i < |c| ==> 0 <= c[i] < |tags| && tags[c[i]] == t
  }

  lemma {:induction false} MarkWhere(tags: seq<Tag>, c: seq<int>, u: Tag, x: nat)
    requires x < |tags|
    ensures Mark(tags, c, u)[x] == if x in c then u else tags[x]
  {
    if c != [] {
      var n := |c| - 1;
      MarkWhere(tags, c[..n], u, x);
      assert x in c <==> x in c[..n] || x == c[n];
    }
  }

  lemma {:induction false} MarkCount(tags: seq<Tag>, c: seq<int>, t: Tag, u: Tag, v: Tag)
    requires AllAre(tags, c, t) && t != u
    ensures Count(Mark(tags, c, u), v) == Count(tags, v) + (if v == u then |c| else 0) - (if v == t then |c| else 0)
  {
    if c != [] {
      var n := |c| - 1;
      MarkCount(tags, c[..n], t, u, v);
      MarkWhere(tags, c[..n], u, c[n]);
      assert c[n] !in c[..n];
      CountUpdate(Mark(tags, c[..n], u), c[n], u, v);
    }
  }

  /** `c` is exactly the objects tagged `t`. */
  ghost predicate Exactly(tags: seq<Tag>, c: seq<int>, t: Tag) {
    AllAre(tags, c, t) && forall x :: 0 <= x < |tags| && tags[x] == t ==> x in c
  }

  lemma {:induction false} CountNone(tags: seq<Tag>, t: Tag)
    ensures Count(tags, t) == 0 <==> forall x :: 0 <= x < |tags| ==> tags[x] != t
  {
    if tags != [] {
      var n := |tags| - 1;
      CountNone(tags[..n], t);
      forall x | 0 <= x < n ensures tags[x] == tags[..n][x] { }
    }
  }

  lemma {:induction false} CountAll(tags: seq<Tag>)
    ensures Count(tags, Free) + Count(tags, Held) + Count(tags, Pass) == |tags|
  {
    if tags != [] { CountAll(tags[..|tags| - 1]); }
  }

  lemma ExactCount(tags: seq<Tag>, c: seq<int>, t: Tag)
    requires Exactly(tags, c, t)
    ensures Count(tags, t) == |c|
  {
    var u := if t == Free then Held else Free;
    MarkCount(tags, c, t, u, t);
    forall x | 0 <= x < |tags| ensures Mark(tags, c, u)[x] != t { MarkWhere(tags, c, u, x); }
    CountNone(Mark(tags, c, u), t);
  }

  /** Objects in use become free: the freelist is still exactly the free ones. */
  lemma MarkFree(tags: seq<Tag>, free: seq<int>, c: seq<int>, t: Tag)
    requires Exactly(tags, free, Free) && AllAre(tags, c, t) && t != Free
    ensures Exactly(Mark(tags, c, Free), c + free, Free)
  {
    var tags' := Mark(tags, c, Free);
    var all := c + free;
    forall i | 0 <= i < |all| ensures 0 <= all[i] < |tags'| && tags'[all[i]] == Free {
      if i < |c| { assert all[i] == c[i] && c[i] in c; } else { assert all[i] == free[i - |c|]; }
      MarkWhere(tags, c, Free, all[i]);
    }
    forall x | 0 <= x < |tags'| && tags'[x] == Free ensures x in all { MarkWhere(tags, c, Free, x); }
    forall i, j | 0 <= i < j < |all| ensures all[i] != all[j] {
      if i < |c| <= j { assert all[i] == c[i] && all[j] == free[j - |c|]; }
    }
  }

  function Reversed(c: seq<int>): (r: seq<int>)
    ensures |r| == |c|
  {
    if c == [] then [] else [c[|c| - 1]] + Reversed(c[..|c| - 1])
  }

  lemma {:induction false} ReversedAt(c: seq<int>, k: nat)
    requires k < |c|
    ensures Reversed(c)[k] == c[|c| - 1 - k]
  {
    if k > 0 { ReversedAt(c[..|c| - 1], k - 1); }
  }

  lemma ReversedAre(tags: seq<Tag>, c: seq<int>, t: Tag)
    requires AllAre(tags, c, t)
    ensures AllAre(tags, Reversed(c), t) && forall x :: x in Reversed(c) <==> x in c
  {
    var r := Reversed(c);
    forall i | 0 <= i < |r| ensures r[i] == c[|c| - 1 - i] { ReversedAt(c, i); }
    forall x | x in c ensures x in r {
      var i :| 0 <= i < |c| && c[i] == x;
      assert r[|c| - 1 - i] == x;
    }
  }

  // ----- a slab -----

  datatype View = View(tags: seq<Tag>, free: seq<int>, listed: bool, discarded: bool)

  /** The freelist is exactly the free objects, and a slab is discarded only with all of them free. */
  ghost predicate Fit(v: View) {
    Exactly(v.tags, v.free, Free) && (v.discarded ==> !v.listed && |v.free| == |v.tags|)
  }

  /** As the allocator expects a slab nobody is working on: listed exactly while something is free. */
  predicate Settled(v: View) { !v.discarded ==> (v.listed <==> v.free != []) }

  /** The candidates of a pass, off the list with something free. */
  predicate Waiting(v: View) { !v.discarded && !v.listed && v.free != [] }

  /** An object in use keeps the slab from being discarded. */
  lemma InUse(v: View, x: nat)
    requires Fit(v) && x < |v.tags| && v.tags[x] != Free
    ensures |v.free| < |v.tags| && !v.discarded
  {
    ExactCount(v.tags, v.free, Free);
    CountAll(v.tags);
    if v.tags[x] == Held { CountNone(v.tags, Held); } else { CountNone(v.tags, Pass); }
  }

  /** __slab_free of the objects `c`: a slab whose freelist was empty is listed, one that was off the list with
      something free stays off, and one with nothing in use is discarded if there are enough others. */
  function Freed(v: View, c: seq<int>, crowded: bool): View {
    var tags, free := Mark(v.tags, c, Free), c + v.free;
    if v.free != [] && !v.listed then View(tags, free, false, v.discarded)
    else if |free| == |tags| && crowded then View(tags, free, false, true)
    else View(tags, free, true, v.discarded)
  }

  lemma FreedKeeps(v: View, c: seq<int>, t: Tag, crowded: bool)
    requires Fit(v) && !v.discarded && AllAre(v.tags, c, t) && t != Free && c != [] && (v.listed ==> v.free != [])
    ensures var v' := Freed(v, c, crowded);
            && Fit(v') && |v'.tags| == |v.tags|
            && (forall x :: 0 <= x < |v.tags| ==> v'.tags[x] == if x in c then Free else v.tags[x])
            && (Settled(v) ==> Settled(v')) && (Waiting(v) ==> Waiting(v'))
  {
    MarkFree(v.tags, v.free, c, t);
    forall x | 0 <= x < |v.tags| ensures Mark(v.tags, c, Free)[x] == if x in c then Free else v.tags[x] {
      MarkWhere(v.tags, c, Free, x);
    }
  }

  /** An allocation of the first free object. */
  function Taken(v: View, t: Tag): View
    requires v.free != [] && 0 <= v.free[0] < |v.tags|
  {
    View(v.tags[v.free[0] := t], v.free[1..], v.listed && |v.free| > 1, v.discarded)
  }

  lemma TakenKeeps(v: View, t: Tag)
    requires Fit(v) && Settled(v) && v.listed && t != Free
    ensures v.free != [] && 0 <= v.free[0] < |v.tags| && v.tags[v.free[0]] == Free && Fit(Taken(v, t)) &&
            Settled(Taken(v, t))
  {
    var v', rest := Taken(v, t), v.free[1..];
    forall x | 0 <= x < |v'.tags| && v'.tags[x] == Free ensures x in rest {
      var i :| 0 <= i < |v.free| && v.free[i] == x;
      assert rest[i - 1] == x;
    }
  }

  // ----- owners -----

  /** What an owner of objects of the slab may do; a step it is not in a position to take is none. */
  datatype OwnerStep = Frees(o: int, crowded: bool) | Takes

  function Owner(v: View, st: OwnerStep): View {
    match st
    case Frees(o, crowded) =>
      if !v.discarded && 0 <= o < |v.tags| && v.tags[o] == Held then Freed(v, [o], crowded) else v
    case Takes => if v.listed && v.free != [] && 0 <= v.free[0] < |v.tags| then Taken(v, Held) else v
  }

  function Owners(v: View, steps: seq<OwnerStep>): View {
    if steps == [] then v else Owner(Owners(v, steps[..|steps| - 1]), steps[|steps| - 1])
  }

  /** What the owners leave alone: the pass's objects, and the list if the pass has taken the slab off it. */
  ghost predicate LeftAlone(v: View, v': View) {
    && |v'.tags| == |v.tags| && (forall x :: 0 <= x < |v.tags| ==> (v'.tags[x] == Pass <==> v.tags[x] == Pass))
    && (Settled(v) ==> Settled(v')) && (Waiting(v) ==> Waiting(v'))
  }

  lemma OwnerKeeps(v: View, st: OwnerStep)
    requires Fit(v) && (Settled(v) || Waiting(v))
    ensures Fit(Owner(v, st)) && LeftAlone(v, Owner(v, st))
  {
    match st
    case Frees(o, crowded) =>
      if !v.discarded && 0 <= o < |v.tags| && v.tags[o] == Held { FreedKeeps(v, [o], Held, crowded); }
    case Takes =>
      if v.listed && v.free != [] { TakenKeeps(v, Held); }
  }

  lemma {:induction false} OwnersKeep(v: View, steps: seq<OwnerStep>)
    requires Fit(v) && (Settled(v) || Waiting(v))
    ensures Fit(Owners(v, steps)) && LeftAlone(v, Owners(v, steps))
  {
    if steps != [] {
      OwnersKeep(v, steps[..|steps| - 1]);
      OwnerKeeps(Owners(v, steps[..|steps| - 1]), steps[|steps| - 1]);
    }
  }

  // ----- the pass -----

  /** What the pass has: the claimed objects, the vacated ones, and perhaps the replacement in its hand. */
  datatype Hold = Hold(v: View, chain: seq<int>, vac: seq<int>, hand: int)

  /** These are different objects of the slab, and all that the pass has. */
  ghost predicate Kept(h: Hold) {
    && Fit(h.v) && !h.v.discarded
    && AllAre(h.v.tags, h.chain, Pass) && AllAre(h.v.tags, h.vac, Pass) && (forall x :: x in h.vac ==> x !in h.chain)
    && -1 <= h.hand < |h.v.tags| && (h.hand >= 0 ==> h.v.tags[h.hand] == Pass && h.hand !in h.chain && h.hand !in h.vac)
    && forall x :: 0 <= x < |h.v.tags| && h.v.tags[x] == Pass ==> x in h.chain || x in h.vac || x == h.hand
  }

  /** get_freelist_nofreeze, the slab having been taken off the list under the same lock. */
  function Claimed(v: View): View { View(Mark(v.tags, v.free, Pass), [], false, v.discarded) }

  /** slab_claim_free. */
  function Look(h: Hold): Hold {
    if h.v.free == [] then h else Hold(Claimed(h.v), h.v.free + h.chain, h.vac, h.hand)
  }

  lemma LookKeeps(h: Hold)
    requires Kept(h)
    ensures Kept(Look(h)) && Look(h).v.free == [] && |Look(h).v.tags| == |h.v.tags|
    ensures Settled(h.v) ==> Settled(Look(h).v)
  {
    var tags, h' := h.v.tags, Look(h);
    forall x | 0 <= x < |tags| ensures Mark(tags, h.v.free, Pass)[x] == if x in h.v.free then Pass else tags[x] {
      MarkWhere(tags, h.v.free, Pass, x);
    }
    forall i, j | 0 <= i < j < |h'.chain| ensures h'.chain[i] != h'.chain[j] {
      var k := |h.v.free|;
      if h.v.free != [] && i < k <= j { assert h'.chain[i] == h.v.free[i] && h'.chain[j] == h.chain[j - k]; }
    }
  }

  /** What may come of asking for a replacement: nothing, an object of another slab, or one of this slab, which is
      listed as soon as an owner has freed something on it. */
  datatype Memory = NoMemory | Elsewhere | Here

  /** What the others do in one round of the loop over the live objects: before the replacement is allocated, up to the
      look at what has become free, and while the callback is called; what comes of the allocation; whether the callback
      would move the object; and whether the slab would be discarded if a replacement put back were its last. */
  datatype Round = Round(before: seq<OwnerStep>, memory: Memory, between: seq<OwnerStep>, during: seq<OwnerStep>,
                         agrees: bool, crowded: bool)

  function Grabbed(h: Hold, m: Memory): Hold {
    if m.Here? && h.v.listed && h.v.free != [] && 0 <= h.v.free[0] < |h.v.tags| then
      Hold(Taken(h.v, Pass), h.chain, h.vac, h.v.free[0])
    else h
  }

  lemma GrabbedKeeps(h: Hold, m: Memory)
    requires Kept(h) && Settled(h.v) && h.hand == -1
    ensures Kept(Grabbed(h, m)) && Settled(Grabbed(h, m).v) && |Grabbed(h, m).v.tags| == |h.v.tags|
  {
    if m.Here? && h.v.listed && h.v.free != [] { TakenKeeps(h.v, Pass); }
  }

  /** kmem_cache_free of a replacement that was not used. */
  function PutBack(h: Hold, crowded: bool): Hold {
    if h.hand >= 0 then Hold(Freed(h.v, [h.hand], crowded), h.chain, h.vac, -1) else h
  }

  lemma PutBackKeeps(h: Hold, crowded: bool)
    requires Kept(h) && Settled(h.v) && h.chain != []
    ensures Kept(PutBack(h, crowded)) && Settled(PutBack(h, crowded).v) && |PutBack(h, crowded).v.tags| == |h.v.tags|
  {
    if h.hand >= 0 {
      FreedKeeps(h.v, [h.hand], Pass, crowded);
      assert h.chain[0] in h.chain;
      InUse(PutBack(h, crowded).v, h.chain[0]);
    }
  }

  /** The owner of `o` now has the replacement, and the pass has `o`. */
  function Handed(tags: seq<Tag>, o: nat, hand: int): seq<Tag>
    requires o < |tags| && hand < |tags|
  {
    var t := tags[o := Pass];
    if hand >= 0 then t[hand := Held] else t
  }

  /** The move callback. It answers DONE only for an object its owner has: it tells a live one from a dead one, and the
      replacement it was given is not live. */
  function Called(h: Hold, o: int, r: Round): (Hold, bool) {
    if o in h.chain then (h, false)
    else
      var v := Owners(h.v, r.during);
      if r.agrees && 0 <= o < |v.tags| && h.hand < |v.tags| && v.tags[o] == Held then
        (Hold(v.(tags := Handed(v.tags, o, h.hand)), h.chain, h.vac + [o], -1), true)
      else (h.(v := v), false)
  }

  /** Owners' steps keep what the pass has. */
  lemma HoldKeeps(h: Hold, steps: seq<OwnerStep>)
    requires Kept(h) && Settled(h.v) && h.chain != []
    ensures Kept(h.(v := Owners(h.v, steps))) && Settled(Owners(h.v, steps)) && |Owners(h.v, steps).tags| == |h.v.tags|
  {
    OwnersKeep(h.v, steps);
    assert h.chain[0] in h.chain;
    InUse(Owners(h.v, steps), h.chain[0]);
  }

  lemma HandedKeeps(h: Hold, o: nat)
    requires Kept(h) && Settled(h.v) && o < |h.v.tags| && h.v.tags[o] == Held
    ensures var v := h.v.(tags := Handed(h.v.tags, o, h.hand)); Kept(Hold(v, h.chain, h.vac + [o], -1)) && Settled(v)
  {
  }

  lemma CalledKeeps(h: Hold, o: nat, r: Round)
    requires Kept(h) && Settled(h.v) && h.chain != []
    ensures var (h', done) := Called(h, o, r);
            && Kept(h') && Settled(h'.v) && |h'.v.tags| == |h.v.tags| && h'.chain == h.chain
            && (done ==> h'.vac == h.vac + [o] && h'.hand == -1) && (!done ==> h'.vac == h.vac && h'.hand == h.hand)
  {
    HoldKeeps(h, r.during);
    var v := Owners(h.v, r.during);
    if o !in h.chain && r.agrees && o < |v.tags| && v.tags[o] == Held { HandedKeeps(h.(v := v), o); }
  }

  /** The look after the replacement is there and before the callback. */
  function Ready(h: Hold, r: Round): Hold {
    var h1 := Grabbed(h.(v := Owners(h.v, r.before)), r.memory);
    Look(h1.(v := Owners(h1.v, r.between)))
  }

  lemma ReadyKeeps(h: Hold, r: Round)
    requires Kept(h) && Settled(h.v) && h.chain != [] && h.hand == -1
    ensures var h' := Ready(h, r);
            && Kept(h') && Settled(h'.v) && h'.v.free == [] && h'.vac == h.vac && |h'.v.tags| == |h.v.tags|
            && Ends(h'.chain, h.chain)
  {
    HoldKeeps(h, r.before);
    var h0 := h.(v := Owners(h.v, r.before));
    GrabbedKeeps(h0, r.memory);
    var h1 := Grabbed(h0, r.memory);
    HoldKeeps(h1, r.between);
    LookKeeps(h1.(v := Owners(h1.v, r.between)));
  }

  /** What was claimed before comes last. */
  ghost predicate Ends(chain: seq<int>, was: seq<int>) { |was| <= |chain| && chain[|chain| - |was|..] == was }

  /** One round of the loop over the live objects, and whether it ends the loop. */
  function Tried(h: Hold, o: int, r: Round): (Hold, bool) {
    if r.memory.NoMemory? then (h.(v := Owners(h.v, r.before)), true)
    else
      var (h', done) := Called(Ready(h, r), o, r);
      (if done then h' else PutBack(h', r.crowded), false)
  }

  lemma TriedKeeps(h: Hold, o: nat, r: Round)
    requires Kept(h) && Settled(h.v) && h.chain != [] && h.hand == -1
    ensures var (h', out) := Tried(h, o, r);
            && Kept(h') && Settled(h'.v) && h'.hand == -1 && |h'.v.tags| == |h.v.tags| && Ends(h'.chain, h.chain)
            && (h'.vac == h.vac || h'.vac == h.vac + [o]) && (out ==> h'.vac == h.vac) && h'.chain != []
  {
    if r.memory.NoMemory? {
      HoldKeeps(h, r.before);
    } else {
      ReadyKeeps(h, r);
      CalledKeeps(Ready(h, r), o, r);
      var (h', done) := Called(Ready(h, r), o, r);
      if !done { PutBackKeeps(h', r.crowded); }
    }
  }

  const IDLE := Round([], NoMemory, [], [], false, false)

  function First(rounds: seq<Round>): Round { if rounds == [] then IDLE else rounds[0] }

  function Rest(rounds: seq<Round>): seq<Round> { if rounds == [] then [] else rounds[1..] }

  /** The loop over the live objects. */
  function Vacated(h: Hold, live: seq<int>, rounds: seq<Round>): Hold
    decreases |live|
  {
    if live == [] then h
    else
      var (h', out) := Tried(h, live[0], First(rounds));
      if out then h' else Vacated(h', live[1..], Rest(rounds))
  }

  lemma VacatedNext(h: Hold, live: seq<int>, i: nat, rounds: seq<Round>)
    requires i < |live|
    ensures var (h', out) := Tried(h, live[i], First(rounds));
            Vacated(h, live[i..], rounds) == if out then h' else Vacated(h', live[i + 1..], Rest(rounds))
  {
    assert live[i..][0] == live[i] && live[i..][1..] == live[i + 1..];
  }

  lemma {:induction false} VacatedKeeps(h: Hold, live: seq<int>, rounds: seq<Round>)
    requires Kept(h) && Settled(h.v) && h.chain != [] && h.hand == -1 && forall i :: 0 <= i < |live| ==> live[i] >= 0
    ensures var h' := Vacated(h, live, rounds);
            && Kept(h') && Settled(h'.v) && h'.hand == -1 && |h'.v.tags| == |h.v.tags| && Ends(h'.chain, h.chain)
    decreases |live|
  {
    if live != [] {
      TriedKeeps(h, live[0], First(rounds));
      var (h', out) := Tried(h, live[0], First(rounds));
      if !out {
        VacatedKeeps(h', live[1..], Rest(rounds));
        EndsOn(Vacated(h', live[1..], Rest(rounds)).chain, h'.chain, h.chain);
      }
    }
  }

  lemma EndsOn(a: seq<int>, b: seq<int>, c: seq<int>)
    requires Ends(a, b) && Ends(b, c)
    ensures Ends(a, c)
  {
    assert a[|a| - |c|..] == a[|a| - |b|..][|b| - |c|..];
  }

  /** The objects that are not the pass's, in address order. */
  function Live(tags: seq<Tag>): seq<int> {
    if tags == [] then [] else Live(tags[..|tags| - 1]) + (if tags[|tags| - 1] == Pass then [] else [|tags| - 1])
  }

  lemma {:induction false} LiveAre(tags: seq<Tag>)
    ensures |Live(tags)| + Count(tags, Pass) == |tags| && Distinct(Live(tags))
    ensures forall x :: x in Live(tags) <==> 0 <= x < |tags| && tags[x] != Pass
  {
    if tags != [] {
      var n := |tags| - 1;
      LiveAre(tags[..n]);
      forall x | 0 <= x < n ensures tags[x] == tags[..n][x] { }
      var l := Live(tags[..n]);
      forall i | 0 <= i < |l| ensures l[i] < n { assert l[i] in l; }
    }
  }

  /** What the others do in a whole pass over the slab. */
  datatype Env = Env(rounds: seq<Round>, bulkCrowded: bool, after: seq<OwnerStep>, lastCrowded: bool)

  /** What the pass has of a slab with something free once the callbacks are done. */
  function Emptying(v: View, rounds: seq<Round>): Hold {
    Vacated(Hold(Claimed(v), v.free, [], -1), Live(Claimed(v).tags), rounds)
  }

  lemma EmptyingKeeps(v: View, rounds: seq<Round>)
    requires Fit(v) && !v.discarded && v.free != [] && forall x :: 0 <= x < |v.tags| ==> v.tags[x] != Pass
    ensures var h := Emptying(v, rounds);
            Kept(h) && Settled(h.v) && h.hand == -1 && |h.v.tags| == |v.tags| && Ends(h.chain, v.free)
    ensures |Live(Claimed(v).tags)| == |v.tags| - |v.free|
  {
    LookKeeps(Hold(v, [], [], -1));
    assert v.free + [] == v.free;
    LiveAre(Claimed(v).tags);
    ExactCount(Claimed(v).tags, v.free, Pass);
    var live := Live(Claimed(v).tags);
    forall i | 0 <= i < |live| ensures live[i] >= 0 { assert live[i] in live; }
    VacatedKeeps(Hold(Claimed(v), v.free, [], -1), Live(Claimed(v).tags), rounds);
  }

  /** The slab once the vacated objects are back. */
  function Bulk(h: Hold, crowded: bool): View {
    if h.vac == [] then h.v else Freed(h.v, Reversed(h.vac), crowded)
  }

  /** The vacated objects go back in bulk, then the claimed ones, and with them the hold on the slab. */
  function GivenBack(h: Hold, env: Env): View {
    Freed(Owners(Bulk(h, env.bulkCrowded), env.after), h.chain, env.lastCrowded)
  }

  /** The slab afterwards, the objects vacated in order, and whether the pass reports it emptied. */
  datatype Outcome = Outcome(v: View, vacated: seq<int>, emptied: bool)

  /** slab_evacuate. */
  function Evacuated(v: View, env: Env): Outcome {
    if v.free == [] then Outcome(Claimed(v), [], false)
    else
      var h := Emptying(v, env.rounds);
      Outcome(GivenBack(h, env), h.vac, |h.vac| == |Live(Claimed(v).tags)|)
  }

  // ----- what `emptied` says -----

  /** Of all the objects, the pass has the claimed and the vacated ones; the others are free or with their owners. */
  lemma HoldCounts(h: Hold)
    requires Kept(h) && h.hand == -1
    ensures |h.chain| + |h.vac| + |h.v.free| + Count(h.v.tags, Held) == |h.v.tags|
  {
    var all := h.chain + h.vac;
    forall i, j | 0 <= i < j < |all| ensures all[i] != all[j] {
      if i < |h.chain| <= j { assert all[i] in h.chain && all[j] in h.vac; }
    }
    forall i | 0 <= i < |all| ensures 0 <= all[i] < |h.v.tags| && h.v.tags[all[i]] == Pass {
      if i >= |h.chain| { assert all[i] == h.vac[i - |h.chain|]; }
    }
    ExactCount(h.v.tags, all, Pass);
    ExactCount(h.v.tags, h.v.free, Free);
    CountAll(h.v.tags);
  }

  /** `emptied` is reported if and only if, when the callbacks are done, no owner has an object any more, nothing is
      free, and nothing was claimed beyond what was free at the start. So for a slab no owner has anything of any more,
      it is right to say so if and only if no owner gave an object back by itself. */
  lemma EmptiedIff(v: View, env: Env)
    requires Fit(v) && !v.discarded && v.free != [] && forall x :: 0 <= x < |v.tags| ==> v.tags[x] != Pass
    ensures var h := Emptying(v, env.rounds);
            Evacuated(v, env).emptied <==> Count(h.v.tags, Held) == 0 && h.v.free == [] && h.chain == v.free
  {
    EmptyingKeeps(v, env.rounds);
    var h := Emptying(v, env.rounds);
    HoldCounts(h);
    if |h.chain| == |v.free| { assert h.chain[0..] == h.chain; }
  }

  /** Then, just before anything is given back, the pass has every object. */
  lemma EmptiedHasAll(v: View, env: Env, x: nat)
    requires Fit(v) && !v.discarded && v.free != [] && forall x :: 0 <= x < |v.tags| ==> v.tags[x] != Pass
    requires Evacuated(v, env).emptied && x < |v.tags|
    ensures var h := Emptying(v, env.rounds); x < |h.v.tags| && h.v.tags[x] == Pass && (x in h.chain || x in h.vac)
  {
    EmptyingKeeps(v, env.rounds);
    EmptiedIff(v, env);
    var h := Emptying(v, env.rounds);
    CountNone(h.v.tags, Held);
  }

  lemma BulkKeeps(h: Hold, crowded: bool)
    requires Kept(h) && Settled(h.v) && h.hand == -1 && h.chain != []
    ensures var h' := Hold(Bulk(h, crowded), h.chain, [], -1);
            Kept(h') && Settled(h'.v) && |h'.v.tags| == |h.v.tags| && forall x :: x in h.vac ==> h'.v.tags[x] == Free
  {
    if h.vac != [] {
      ReversedAre(h.v.tags, h.vac, Pass);
      FreedKeeps(h.v, Reversed(h.vac), Pass, crowded);
      assert h.chain[0] in h.chain;
      InUse(Bulk(h, crowded), h.chain[0]);
    }
  }

  lemma LastKeeps(h: Hold, crowded: bool)
    requires Kept(h) && Settled(h.v) && h.hand == -1 && h.chain != [] && h.vac == []
    ensures var v := Freed(h.v, h.chain, crowded);
            && Fit(v) && Settled(v) && |v.tags| == |h.v.tags|
            && (forall x :: 0 <= x < |v.tags| ==> v.tags[x] != Pass) && (forall x :: x in h.chain ==> v.tags[x] == Free)
  {
    FreedKeeps(h.v, h.chain, Pass, crowded);
  }

  lemma GivenBackKeeps(h: Hold, env: Env)
    requires Kept(h) && Settled(h.v) && h.hand == -1 && h.chain != []
    ensures var v := GivenBack(h, env);
            && Fit(v) && Settled(v) && |v.tags| == |h.v.tags|
            && (forall x :: 0 <= x < |v.tags| ==> v.tags[x] != Pass) && (forall x :: x in h.chain ==> v.tags[x] == Free)
  {
    BulkKeeps(h, env.bulkCrowded);
    var h1 := Hold(Bulk(h, env.bulkCrowded), h.chain, [], -1);
    HoldKeeps(h1, env.after);
    LastKeeps(h1.(v := Owners(h1.v, env.after)), env.lastCrowded);
  }

  /** Whatever the others do, at the end the pass has nothing, what was free at the start is free, and the slab is
      listed exactly while something is free, or discarded. */
  lemma EvacuatedKeeps(v: View, env: Env)
    requires Fit(v) && !v.discarded && forall x :: 0 <= x < |v.tags| ==> v.tags[x] != Pass
    ensures var v' := Evacuated(v, env).v;
            && Fit(v') && Settled(v') && |v'.tags| == |v.tags|
            && (forall x :: 0 <= x < |v'.tags| ==> v'.tags[x] != Pass)
            && forall x :: x in v.free ==> v'.tags[x] == Free
  {
    if v.free == [] {
      assert Mark(v.tags, [], Pass) == v.tags;
    } else {
      EmptyingKeeps(v, env.rounds);
      var h := Emptying(v, env.rounds);
      GivenBackKeeps(h, env);
      forall x | x in v.free ensures x in h.chain { assert v.free == h.chain[|h.chain| - |v.free|..]; }
    }
  }

  /** The owner of the one live object of a slab frees it before the pass looks: nothing is moved, so `emptied` is
      false, and yet every object of the slab is free in the end. */
  lemma OwnerWasFaster()
    ensures var v := View([Held, Free], [1], false, false);
            var env := Env([Round([], Elsewhere, [Frees(0, false)], [], true, false)], false, [], false);
            && Fit(v) && Waiting(v)
            && Evacuated(v, env) == Outcome(View([Free, Free], [0, 1], true, false), [], false)
  {
    var v := View([Held, Free], [1], false, false);
    var env := Env([Round([], Elsewhere, [Frees(0, false)], [], true, false)], false, [], false);
    FasterStart(v);
    FasterRound(env.rounds[0]);
    FasterEnd(env);
    var h := Hold(View([Held, Pass], [], false, false), [1], [], -1);
    assert Tried(h, 0, First(env.rounds)) == (Hold(View([Pass, Pass], [], false, false), [0, 1], [], -1), false);
    assert Vacated(h, [0], env.rounds) == Hold(View([Pass, Pass], [], false, false), [0, 1], [], -1);
  }

  lemma FasterStart(v: View)
    requires v == View([Held, Free], [1], false, false)
    ensures Fit(v) && Claimed(v) == View([Held, Pass], [], false, false) && Live(Claimed(v).tags) == [0]
  {
    assert [1][..0] == [];
    assert Mark(v.tags, [1], Pass) == [Held, Pass];
    assert [Held, Pass][..1] == [Held] && [Held][..0] == [];
  }

  lemma FasterRound(r: Round)
    requires r == Round([], Elsewhere, [Frees(0, false)], [], true, false)
    ensures Tried(Hold(View([Held, Pass], [], false, false), [1], [], -1), 0, r) ==
            (Hold(View([Pass, Pass], [], false, false), [0, 1], [], -1), false)
  {
    var v := View([Held, Pass], [], false, false);
    var st := Frees(0, false);
    assert [0][..0] == [] && [st][..0] == [];
    assert Mark(v.tags, [0], Free) == [Free, Pass];
    assert Owners(v, [st]) == View([Free, Pass], [0], true, false);
    assert Mark([Free, Pass], [0], Pass) == [Pass, Pass];
    assert Ready(Hold(v, [1], [], -1), r) == Hold(View([Pass, Pass], [], false, false), [0, 1], [], -1);
  }

  lemma FasterEnd(env: Env)
    requires env.after == [] && !env.lastCrowded
    ensures GivenBack(Hold(View([Pass, Pass], [], false, false), [0, 1], [], -1), env) ==
            View([Free, Free], [0, 1], true, false)
  {
    assert [0, 1][..1] == [0] && [0][..0] == [];
    assert Mark([Pass, Pass], [0], Free) == [Free, Pass];
    assert Mark([Pass, Pass], [0, 1], Free) == [Free, Free];
  }
}
