module SlabPass {
  /**
   Emptying one slab: slab_claim_free and slab_evacuate of patches/kernel/slab-object-mobility.patch.

   Objects are numbered by their place on the slab and -1 is the null pointer. The free pointers are an
   array, the freelist a chain through it, exactly as the kernel keeps them. The owners of objects
   allocate and free at every moment the pass does not hold the list lock: what they do, what the allocator and the
   callback answer, and whether the allocator has slabs enough, are parameters. Upstream's own functions follow
   their contracts: get_freelist_nofreeze takes the whole freelist and counts all objects as in use, and __slab_free
   is `Free` below.
   */
  import opened SlabSpec

  // ----- chains -----

  function Head(c: seq<int>): int { if c == [] then -1 else c[0] }

  /** Following the free pointers from `head` visits exactly `c` and then ends. */
  ghost predicate IsChain(next: seq<int>, head: int, c: seq<int>) {
    head == Head(c) && forall i :: 0 <= i < |c| ==> Links(next, c, i)
  }

  predicate Links(next: seq<int>, c: seq<int>, i: nat)
    requires i < |c|
  {
    0 <= c[i] < |next| && next[c[i]] == (if i + 1 < |c| then c[i + 1] else -1)
  }

  /** A chain is not disturbed by writing free pointers of objects that are not on it. */
  lemma ChainKept(next: seq<int>, next': seq<int>, head: int, c: seq<int>)
    requires IsChain(next, head, c) && |next'| == |next|
    requires forall i :: 0 <= i < |c| && 0 <= c[i] < |next| ==> next'[c[i]] == next[c[i]]
    ensures IsChain(next', head, c)
  {
    forall i | 0 <= i < |c| ensures Links(next', c, i) { assert Links(next, c, i); }
  }

  /** The same for a chain whose end may point anywhere: the kernel keeps such a chain by its two ends. */
  ghost predicate IsRun(next: seq<int>, head: int, tail: int, c: seq<int>) {
    && c != [] && head == c[0] && tail == c[|c| - 1] && 0 <= tail < |next|
    && forall i :: 0 <= i < |c| - 1 ==> Links(next, c, i)
  }

  lemma RunKept(next: seq<int>, next': seq<int>, head: int, tail: int, c: seq<int>)
    requires IsRun(next, head, tail, c) && |next'| == |next|
    requires forall i :: 0 <= i < |c| && 0 <= c[i] < |next| ==> next'[c[i]] == next[c[i]]
    ensures IsRun(next', head, tail, c)
  {
    forall i | 0 <= i < |c| - 1 ensures Links(next', c, i) { assert Links(next, c, i); }
  }

  lemma ChainIsRun(next: seq<int>, c: seq<int>)
    requires IsChain(next, Head(c), c) && c != []
    ensures IsRun(next, Head(c), c[|c| - 1], c)
  {
    assert Links(next, c, |c| - 1);
  }

  /** Pointing the end of a run at the head of a chain makes one chain of both. */
  lemma ChainJoined(next: seq<int>, a: seq<int>, last: int, b: seq<int>)
    requires IsRun(next, Head(a), last, a) && IsChain(next, Head(b), b)
    requires Distinct(a) && (forall i :: 0 <= i < |b| ==> b[i] != last)
    ensures IsChain(next[last := Head(b)], Head(a), a + b)
  {
    var c, k := a + b, |a| - 1;
    var next' := next[last := Head(b)];
    forall i | 0 <= i < |c| ensures Links(next', c, i) {
      if i < k {
        assert Links(next, a, i);
      } else if i > k {
        assert Links(next, b, i - |a|);
      }
    }
  }

  /** The same with a run at the end. */
  lemma RunsJoined(next: seq<int>, a: seq<int>, last: int, b: seq<int>, tail: int)
    requires IsRun(next, Head(a), last, a) && IsRun(next, Head(b), tail, b)
    requires Distinct(a) && (forall i :: 0 <= i < |b| ==> b[i] != last)
    ensures IsRun(next[last := Head(b)], Head(a), tail, a + b)
  {
    var c, k := a + b, |a| - 1;
    var next' := next[last := Head(b)];
    forall i | 0 <= i < |c| - 1 ensures Links(next', c, i) {
      if i < k {
        assert Links(next, a, i);
      } else if i > k {
        assert Links(next, b, i - |a|);
      }
    }
  }

  /** One more vacated object, its free pointer set to the ones before it. */
  lemma RunGrows(next: seq<int>, vac: seq<int>, i: nat, head: int)
    requires i < |vac| && Distinct(vac) && (forall k :: 0 <= k < |vac| ==> 0 <= vac[k] < |next|)
    requires if i == 0 then head == -1 else IsRun(next, head, vac[0], Reversed(vac[..i]))
    ensures IsRun(next[vac[i] := head], vac[i], vac[0], Reversed(vac[..i + 1]))
  {
    var r, r' := Reversed(vac[..i]), Reversed(vac[..i + 1]);
    var next' := next[vac[i] := head];
    assert vac[..i + 1][..i] == vac[..i] && r' == [vac[i]] + r;
    forall k | 0 <= k < |r'| - 1 ensures Links(next', r', k) {
      if k > 0 {
        ReversedAt(vac[..i], k - 1);
        assert Links(next, r, k - 1);
      }
    }
    if i > 0 { ReversedAt(vac[..i], i - 1); }
  }

  lemma ClaimedRun(next: seq<int>, took: seq<int>, chain: seq<int>, last: int, tail: int)
    requires took != [] && IsChain(next, Head(took), took) && Distinct(took) && last == took[|took| - 1]
    requires chain != [] ==> IsRun(next, Head(chain), tail, chain) && forall i :: 0 <= i < |chain| ==> chain[i] !in took
    ensures chain == [] ==> IsRun(next, Head(took), last, took + chain)
    ensures chain != [] ==> 0 <= last < |next| && IsRun(next[last := Head(chain)], Head(took), tail, took + chain)
  {
    ChainIsRun(next, took);
    if chain == [] {
      assert took + chain == took;
    } else {
      RunsJoined(next, took, last, chain, tail);
    }
  }

  // ----- one slab -----

  class Slab {
    const n: nat
    const next: array<int>
    var freelist: int
    var inuse: int
    var listed: bool
    var discarded: bool
    var free: seq<int>
    var tags: seq<Tag>

    /** A new slab, all of its objects on the freelist in order, as the allocator makes it and lists it. */
    constructor (size: nat)
      requires size > 0
      ensures Valid() && Settled(Abs()) && n == size && fresh(next)
      ensures Abs() == View(seq(size, _ => Tag.Free), seq(size, i => i), true, false)
    {
      n := size;
      next := new int[size](i => if i + 1 < size then i + 1 else -1);
      freelist := 0;
      inuse := 0;
      listed := true;
      discarded := false;
      free := seq(size, i => i);
      tags := seq(size, _ => Tag.Free);
      new;
      forall i | 0 <= i < |free| ensures Links(next[..], free, i) { }
      forall x | 0 <= x < size ensures x in free { assert free[x] == x; }
    }

    function Abs(): View
      reads `tags, `free, `listed, `discarded
    {
      View(tags, free, listed, discarded)
    }

    /** The freelist is a chain of exactly the free objects, and all the others are counted as in use. */
    ghost predicate Valid()
      reads this, next
    {
      && next.Length == n == |tags|
      && IsChain(next[..], freelist, free)
      && Fit(Abs())
      && inuse == n - |free|
    }

    /** The count of objects in use is that of the ones their owners have and the ones the pass has, so the slab is not
        discarded while there is one. */
    lemma InUseCounts()
      requires Valid()
      ensures inuse == Count(tags, Held) + Count(tags, Pass)
      ensures inuse > 0 ==> !discarded
    {
      ExactCount(tags, free, Tag.Free);
      CountAll(tags);
    }

    lemma NoneFree()
      requires Valid()
      ensures freelist == -1 <==> free == []
    {
      if free != [] { assert Links(next[..], free, 0); }
    }

    lemma ReturnChain(c: seq<int>, last: int, t: Tag)
      requires Valid() && IsRun(next[..], Head(c), last, c) && AllAre(tags, c, t) && t != Tag.Free
      ensures 0 <= Head(c) && IsChain(next[..][last := freelist], Head(c), c + free)
    {
      ChainJoined(next[..], c, last, free);
    }

    /** The contract of __slab_free: the chain `c` from `first` to `last` goes to the front of the freelist. A slab
        whose freelist was empty is listed, one that was off the list with something free stays off, and one with
        nothing in use is discarded if there are enough others. */
    method Free(first: int, last: int, cnt: nat, c: seq<int>, t: Tag, crowded: bool)
      requires Valid() && !discarded && IsRun(next[..], first, last, c)
      requires cnt == |c| && AllAre(tags, c, t) && t != Tag.Free && (listed ==> free != [])
      modifies this, next
      ensures Valid() && Abs() == Freed(old(Abs()), c, crowded)
      ensures next[..] == old(next[..])[last := old(freelist)]
    {
      ghost var before, prior, v := next[..], freelist, Abs();
      NoneFree();
      ReturnChain(c, last, t);
      FreedKeeps(v, c, t, crowded);
      var was := freelist;
      next[last] := freelist;
      assert next[..] == before[last := prior];
      freelist := first;
      inuse := inuse - cnt;
      free := c + free;
      tags := Mark(tags, c, Tag.Free);
      if inuse == 0 || was == -1 {
        if was != -1 && !listed {
          return;
        }
        if inuse == 0 && crowded {
          listed := false;
          discarded := true;
        } else if was == -1 {
          listed := true;
        }
      }
    }

    /** An allocation served from this slab: only off the partial list. */
    method Alloc(t: Tag) returns (o: int)
      requires Valid() && Settled(Abs()) && listed && t != Tag.Free
      modifies `freelist, `inuse, `listed, `free, `tags
      ensures Valid() && old(free) != [] && o == old(free)[0] && 0 <= o < n && Abs() == Taken(old(Abs()), t)
    {
      TakenKeeps(Abs(), t);
      FirstOff(next[..], free);
      o := freelist;
      freelist := next[o];
      inuse := inuse + 1;
      tags := tags[o := t];
      free := free[1..];
      if freelist == -1 {
        listed := false;
      }
    }

    // ----- owners -----

    /** Nobody but the pass touches the free pointers of the objects it has. */
    twostate predicate PassKept()
      reads this, next
    {
      forall x :: 0 <= x < |old(tags)| && x < next.Length && old(tags[x]) == Pass ==> next[x] == old(next[x])
    }

    method OwnerStep(st: OwnerStep)
      requires Valid() && (Settled(Abs()) || Waiting(Abs()))
      modifies this, next
      ensures Valid() && PassKept() && Abs() == Owner(old(Abs()), st)
    {
      match st
      case Frees(o, crowded) =>
        if !discarded && 0 <= o < n && tags[o] == Held {
          Free(o, o, 1, [o], Held, crowded);
        }
      case Takes =>
        if listed && freelist != -1 {
          NoneFree();
          var o := Alloc(Held);
        } else {
          NoneFree();
        }
    }

    /** Any number of frees and allocations by the owners of this slab's objects. */
    method Interfere(steps: seq<OwnerStep>)
      requires Valid() && (Settled(Abs()) || Waiting(Abs()))
      modifies this, next
      ensures Valid() && PassKept() && Abs() == Owners(old(Abs()), steps)
      ensures LeftAlone(old(Abs()), Abs())
    {
      ghost var v := Abs();
      assert steps[..0] == [];
      for i := 0 to |steps|
        invariant Valid() && PassKept() && Abs() == Owners(v, steps[..i])
        invariant LeftAlone(v, Abs())
      {
        OwnersKeep(v, steps[..i + 1]);
        assert steps[..i + 1][..i] == steps[..i];
        OwnerStep(steps[i]);
      }
      assert steps[..|steps|] == steps;
    }

    // ----- the pass -----

    /** What the pass has: the claimed objects on one run, noted in `bits`, the vacated ones, and perhaps the
        replacement in its hand. */
    ghost predicate Holding(bits: array<bool>, head: int, tail: int, h: Hold)
      reads this, next, bits
    {
      Valid() && Kept(h) && h.v == Abs() && Claims(bits, head, tail, h.chain)
    }

    ghost predicate Claims(bits: array<bool>, head: int, tail: int, chain: seq<int>)
      requires next.Length == n == |tags|
      reads this, next, bits
    {
      && bits.Length == n && (forall x :: 0 <= x < n ==> (bits[x] <==> x in chain))
      && (if chain == [] then head == tail == -1 else IsRun(next[..], head, tail, chain))
    }

    /** The run of claimed objects stands as long as their free pointers do. */
    lemma ClaimsKept(was: seq<int>, bits: array<bool>, head: int, tail: int, h: Hold)
      requires next.Length == n == |tags| == |was| == |h.v.tags| == bits.Length && AllAre(h.v.tags, h.chain, Pass)
      requires h.chain != [] && IsRun(was, head, tail, h.chain)
      requires forall x :: 0 <= x < n ==> (bits[x] <==> x in h.chain)
      requires forall x :: 0 <= x < n && x in h.chain ==> next[x] == was[x]
      ensures Claims(bits, head, tail, h.chain)
    {
      forall i | 0 <= i < |h.chain| ensures next[..][h.chain[i]] == was[h.chain[i]] { assert h.chain[i] in h.chain; }
      RunKept(was, next[..], head, tail, h.chain);
    }

    lemma ChainPass(h: Hold, x: int)
      requires Kept(h) && (x in h.chain || x in h.vac)
      ensures 0 <= x < |h.v.tags| && h.v.tags[x] == Pass
    {
    }

    /** The owners' steps do not touch what the pass has, and cannot get the slab discarded under it. */
    method Meanwhile(bits: array<bool>, head: int, tail: int, h: Hold, steps: seq<OwnerStep>)
      requires Holding(bits, head, tail, h) && Settled(Abs()) && h.chain != []
      modifies this, next
      ensures Holding(bits, head, tail, h.(v := Owners(h.v, steps))) && Settled(Abs())
    {
      ghost var was := next[..];
      HoldKeeps(h, steps);
      Interfere(steps);
      forall x | 0 <= x < n && x in h.chain ensures next[x] == was[x] { ChainPass(h, x); }
      ClaimsKept(was, bits, head, tail, h);
    }

    /** get_freelist_nofreeze, the slab having been taken off the partial list under the same lock. */
    method TakeAll() returns (p: int)
      requires Valid() && !discarded
      modifies `freelist, `inuse, `listed, `free, `tags
      ensures Valid() && Abs() == Claimed(old(Abs())) && freelist == -1 && p == old(freelist)
    {
      TakenAll();
      if listed {
        listed := false;
      }
      p := freelist;
      freelist := -1;
      inuse := n;
      tags := Mark(tags, free, Pass);
      free := [];
    }

    lemma TakenAll()
      requires Valid() && !discarded
      ensures Fit(Claimed(Abs()))
    {
      forall x | 0 <= x < n ensures Mark(tags, free, Pass)[x] != Tag.Free { MarkWhere(tags, free, Pass, x); }
    }

    /** The walk over the chain just taken. */
    method Gather(bits: array<bool>, first: int, took: seq<int>) returns (last: int, claimed: nat)
      requires next.Length == n == bits.Length && IsChain(next[..], first, took) && Distinct(took)
      modifies bits
      ensures claimed == |took| && (took != [] ==> last == took[|took| - 1])
      ensures forall x :: 0 <= x < n ==> (bits[x] <==> old(bits[x]) || x in took)
    {
      var p := first;
      last, claimed := -1, 0;
      forall i | 0 <= i < |took| ensures took[i] >= 0 { assert Links(next[..], took, i); }
      while p != -1
        invariant 0 <= claimed <= |took| && p == (if claimed < |took| then took[claimed] else -1)
        invariant claimed > 0 ==> last == took[claimed - 1]
        invariant forall x :: 0 <= x < n ==> (bits[x] <==> old(bits[x]) || x in took[..claimed])
        decreases |took| - claimed
      {
        assert Links(next[..], took, claimed);
        assert took[..claimed + 1] == took[..claimed] + [p];
        bits[p] := true;
        last := p;
        p := next[p];
        claimed := claimed + 1;
      }
      assert took[..claimed] == took;
    }

    /** slab_claim_free. */
    method ClaimFree(bits: array<bool>, head: int, tail: int, h: Hold) returns (head': int, tail': int, claimed: nat)
      requires Holding(bits, head, tail, h) && (listed ==> free != [])
      modifies this, next, bits
      ensures Holding(bits, head', tail', Look(h)) && claimed == |old(free)| && freelist == -1
    {
      var took := free;
      NoneFree();
      LookKeeps(h);
      ghost var before := next[..];
      var first := TakeAll();
      head', tail', claimed := head, tail, 0;
      if first == -1 {
        assert Mark(h.v.tags, [], Pass) == h.v.tags;
        return;
      }
      var last;
      last, claimed := Gather(bits, first, took);
      ApartFrom(h, took);
      if tail != -1 {
        next[last] := head;
        assert next[..] == before[last := head];
      } else {
        tail' := last;
      }
      head' := first;
      ClaimedRun(before, took, h.chain, last, tail);
    }

    /** What was free is none of what the pass has. */
    lemma ApartFrom(h: Hold, took: seq<int>)
      requires Kept(h) && took == h.v.free
      ensures forall i :: 0 <= i < |h.chain| ==> h.chain[i] !in took
    {
    }

    /** kmem_cache_alloc for the replacement: it may fail, come from another slab, or come from this one, which is
        listed as soon as an owner has freed something on it. */
    method Replacement(bits: array<bool>, head: int, tail: int, h: Hold, m: Memory) returns (ok: bool, hand: int)
      requires Holding(bits, head, tail, h) && Settled(Abs()) && h.chain != [] && h.hand == -1
      modifies this, next
      ensures Holding(bits, head, tail, Grabbed(h, m)) && Settled(Abs())
      ensures ok == !m.NoMemory? && hand == Grabbed(h, m).hand
    {
      GrabbedKeeps(h, m);
      ok, hand := !m.NoMemory?, -1;
      NoneFree();
      if m.Here? && listed {
        TakenKeeps(Abs(), Pass);
        hand := Alloc(Pass);
      }
    }

    /** kmem_cache_free of a replacement that was not used. */
    method GiveUp(bits: array<bool>, head: int, tail: int, h: Hold, hand: int, crowded: bool)
      requires Holding(bits, head, tail, h) && Settled(Abs()) && h.chain != [] && hand == h.hand
      modifies this, next
      ensures Holding(bits, head, tail, PutBack(h, crowded)) && Settled(Abs())
    {
      PutBackKeeps(h, crowded);
      if hand >= 0 {
        ghost var was := next[..];
        Free(hand, hand, 1, [hand], Pass, crowded);
        ClaimsKept(was, bits, head, tail, h);
      }
    }

    /** The move callback under the RCU read side, some time after a look at the slab that found nothing free. It
        answers DONE only for an object its owner has: it tells a live one from a dead one, and the replacement it was
        given is not live. Then the owner has the replacement instead, and the pass has the object. */
    method MoveObject(o: int, bits: array<bool>, head: int, tail: int, h: Hold, hand: int, r: Round)
      returns (done: bool)
      requires Holding(bits, head, tail, h) && Settled(Abs()) && h.chain != [] && hand == h.hand
      requires free == [] && 0 <= o < n && !bits[o]
      modifies this, next
      ensures Settled(Abs()) && Holding(bits, head, tail, Called(h, o, r).0) && done == Called(h, o, r).1
      ensures done ==> o != hand
    {
      CalledKeeps(h, o, r);
      Meanwhile(bits, head, tail, h, r.during);
      done := r.agrees && tags[o] == Held;
      if done {
        tags := Handed(tags, o, hand);
      }
    }

    /** A replacement, and a last look at what the owners freed. */
    method Prepare(bits: array<bool>, head: int, tail: int, claimed: nat, h: Hold, r: Round)
      returns (head': int, tail': int, claimed': nat, ok: bool, hand: int)
      requires Holding(bits, head, tail, h) && Settled(Abs()) && h.chain != [] && h.hand == -1 && claimed == |h.chain|
      modifies this, next, bits
      ensures Settled(Abs()) && ok == !r.memory.NoMemory?
      ensures var h' := if ok then Ready(h, r) else h.(v := Owners(h.v, r.before));
              Holding(bits, head', tail', h') && claimed' == |h'.chain| && hand == h'.hand && (ok ==> free == [])
    {
      var h1 := h.(v := Owners(h.v, r.before));
      Meanwhile(bits, head, tail, h, r.before);
      ok, hand := Replacement(bits, head, tail, h1, r.memory);
      head', tail', claimed' := head, tail, claimed;
      if !ok {
        return;
      }
      var h2 := Grabbed(h1, r.memory);
      Meanwhile(bits, head, tail, h2, r.between);
      NoneFree();
      if freelist != -1 {
        var more;
        head', tail', more := ClaimFree(bits, head, tail, h2.(v := Owners(h2.v, r.between)));
        claimed' := claimed + more;
        NoneFree();
      }
    }

    /** One object: a replacement, a last look at what the owners freed, and the callback. */
    method TryObject(o: int, bits: array<bool>, head: int, tail: int, claimed: nat, h: Hold, r: Round)
      returns (head': int, tail': int, claimed': nat, done: bool, out: bool)
      requires Holding(bits, head, tail, h) && Settled(Abs()) && h.chain != [] && h.hand == -1 && 0 <= o < n
      requires claimed == |h.chain|
      modifies this, next, bits
      ensures Settled(Abs()) && Holding(bits, head', tail', Tried(h, o, r).0) && out == Tried(h, o, r).1
      ensures Tried(h, o, r).0.vac == (if done then h.vac + [o] else h.vac) && claimed' == |Tried(h, o, r).0.chain|
    {
      done, out := false, false;
      var ok, hand;
      head', tail', claimed', ok, hand := Prepare(bits, head, tail, claimed, h, r);
      if !ok {
        out := true;
        return;
      }
      ReadyKeeps(h, r);
      done := AskOwner(o, bits, head', tail', Ready(h, r), hand, r);
    }

    /** The callback, unless the object turned out to be free already. */
    method AskOwner(o: int, bits: array<bool>, head: int, tail: int, h: Hold, hand: int, r: Round) returns (done: bool)
      requires Holding(bits, head, tail, h) && Settled(Abs()) && h.chain != [] && hand == h.hand && free == [] &&
               0 <= o < n
      modifies this, next
      ensures Settled(Abs()) && done == Called(h, o, r).1
      ensures Holding(bits, head, tail, if done then Called(h, o, r).0 else PutBack(Called(h, o, r).0, r.crowded))
      ensures var h' := Called(h, o, r).0;
              && h'.chain == PutBack(h', r.crowded).chain == h.chain
              && PutBack(h', r.crowded).vac == h'.vac == if done then h.vac + [o] else h.vac
    {
      CalledKeeps(h, o, r);
      done := false;
      if !bits[o] {
        done := MoveObject(o, bits, head, tail, h, hand, r);
      }
      if !done {
        GiveUp(bits, head, tail, Called(h, o, r).0, hand, r.crowded);
      }
    }

    /** for_each_object: what was not claimed is live. */
    method ListLive(bits: array<bool>, objs: array<int>) returns (live: nat)
      requires |tags| == n == bits.Length && n <= objs.Length
      requires forall x :: 0 <= x < n ==> (bits[x] <==> tags[x] == Pass)
      modifies objs
      ensures live <= n && objs[..live] == Live(tags)
    {
      live := 0;
      assert tags[..0] == [];
      for p := 0 to n
        invariant live <= p && objs[..live] == Live(tags[..p])
      {
        assert tags[..p + 1][..p] == tags[..p];
        if !bits[p] {
          objs[live] := p;
          live := live + 1;
        }
      }
      assert tags[..n] == tags;
    }

    /** The array while the loop is at `i`: the objects still to come are where they were, and the vacated ones are
        collected at the front, over ones already looked at. */
    ghost predicate Listed(objs: array<int>, moved: nat, i: nat, live: seq<int>, vac: seq<int>)
      reads objs
    {
      && moved <= i <= |live| <= objs.Length
      && objs[i..|live|] == live[i..] && objs[..moved] == vac
    }

    lemma ListedNext(objs: array<int>, moved: nat, i: nat, live: seq<int>, vac: seq<int>)
      requires Listed(objs, moved, i, live, vac) && i < |live|
      ensures objs[i] == live[i] && Listed(objs, moved, i + 1, live, vac)
    {
      assert objs[i] == objs[i..|live|][0];
      assert objs[i + 1..|live|] == objs[i..|live|][1..];
    }

    /** The loop over the live objects. */
    method MoveAll(bits: array<bool>, objs: array<int>, live: seq<int>, count: nat, head0: int, tail0: int,
                   claimed0: nat, h0: Hold, rounds0: seq<Round>)
      returns (head: int, tail: int, claimed: nat, moved: nat)
      requires Holding(bits, head0, tail0, h0) && Settled(Abs()) && h0.chain != [] && h0.hand == -1 && h0.vac == []
      requires claimed0 == |h0.chain| && count == |live| <= objs.Length && objs != next && objs[..count] == live
      requires forall i :: 0 <= i < |live| ==> 0 <= live[i] < n
      modifies this, next, bits, objs
      ensures Settled(Abs()) && Holding(bits, head, tail, Vacated(h0, live, rounds0))
      ensures moved <= objs.Length && objs[..moved] == Vacated(h0, live, rounds0).vac
      ensures claimed == |Vacated(h0, live, rounds0).chain|
    {
      head, tail, claimed, moved := head0, tail0, claimed0, 0;
      var i, rounds := 0, rounds0;
      var h := h0;
      assert live[0..] == live;
      assert live[|live|..] == [];
      var out := false;
      while i < count && !out
        invariant i <= count && moved <= objs.Length && objs[..moved] == h.vac
        invariant !out ==>
                    Listed(objs, moved, i, live, h.vac) && Vacated(h0, live, rounds0) == Vacated(h, live[i..], rounds)
        invariant out ==> Vacated(h0, live, rounds0) == h
        invariant Working(bits, head, tail, claimed, h)
        decreases count - i, !out
      {
        VacatedNext(h, live, i, rounds);
        TriedKeeps(h, live[i], First(rounds));
        var next := Tried(h, live[i], First(rounds)).0;
        head, tail, claimed, moved, out := TryNext(bits, objs, live, head, tail, claimed, moved, i, h, First(rounds));
        h := next;
        if !out {
          i, rounds := i + 1, Rest(rounds);
        }
      }
    }

    ghost predicate Working(bits: array<bool>, head: int, tail: int, claimed: nat, h: Hold)
      reads this, next, bits
    {
      Holding(bits, head, tail, h) && Settled(Abs()) && h.chain != [] && h.hand == -1 && claimed == |h.chain|
    }

    /** One round of the loop over the live objects. */
    method TryNext(bits: array<bool>, objs: array<int>, live: seq<int>, head: int, tail: int, claimed: nat, moved: nat,
                   i: nat, h: Hold, r: Round)
      returns (head': int, tail': int, claimed': nat, moved': nat, out: bool)
      requires Working(bits, head, tail, claimed, h)
      requires i < |live| && Listed(objs, moved, i, live, h.vac) && 0 <= live[i] < n && objs != next
      modifies this, next, bits, objs
      ensures var (h', o) := Tried(h, live[i], r);
              && out == o && Working(bits, head', tail', claimed', h')
              && moved' <= objs.Length && objs[..moved'] == h'.vac &&
                (!out ==> Listed(objs, moved', i + 1, live, h'.vac))
    {
      TriedKeeps(h, live[i], r);
      ListedNext(objs, moved, i, live, h.vac);
      var done;
      head', tail', claimed', done, out := TryObject(objs[i], bits, head, tail, claimed, h, r);
      moved' := moved;
      if done {
        Collect(objs, moved, i, live);
        moved' := moved + 1;
      }
    }

    /** A vacated object is moved to the front of the array. */
    method Collect(objs: array<int>, moved: nat, i: nat, ghost live: seq<int>)
      requires moved <= i < |live| <= objs.Length && objs[i..|live|] == live[i..]
      modifies objs
      ensures Listed(objs, moved + 1, i + 1, live, old(objs[..moved]) + [live[i]])
    {
      assert objs[i] == objs[i..|live|][0];
      ghost var was := objs[..];
      objs[moved] := objs[i];
      assert objs[..] == was[moved := was[i]];
      forall k | i + 1 <= k < |live| ensures objs[k] == live[k] { assert was[k] == was[i..|live|][k - i]; }
    }

    /** The loop that strings the vacated objects together. */
    method BulkChain(objs: array<int>, moved: nat) returns (bulkHead: int, bulkTail: int)
      requires 0 < moved <= objs.Length && objs != next && next.Length == n && Distinct(objs[..moved])
      requires forall k :: 0 <= k < moved ==> 0 <= objs[k] < n
      modifies next
      ensures IsRun(next[..], bulkHead, bulkTail, Reversed(objs[..moved]))
      ensures forall x :: 0 <= x < n && x !in objs[..moved] ==> next[x] == old(next[x])
    {
      ghost var vac := objs[..moved];
      bulkHead, bulkTail := -1, objs[0];
      for i := 0 to moved
        invariant if i == 0 then bulkHead == -1 else IsRun(next[..], bulkHead, bulkTail, Reversed(vac[..i]))
        invariant forall x :: 0 <= x < n && x !in vac ==> next[x] == old(next[x])
      {
        ghost var before := next[..];
        assert vac[i] == objs[i] && vac[i] in vac;
        next[objs[i]] := bulkHead;
        assert next[..] == before[objs[i] := bulkHead];
        RunGrows(before, vac, i, bulkHead);
        bulkHead := objs[i];
      }
      assert vac[..moved] == vac;
    }

    /** The vacated objects go back to their slab as one chain. */
    method BulkFree(objs: array<int>, moved: nat, bits: array<bool>, head: int, tail: int, h: Hold, crowded: bool)
      requires 0 < moved <= objs.Length && objs != next && objs[..moved] == h.vac
      requires Holding(bits, head, tail, h) && Settled(Abs()) && h.chain != [] && h.hand == -1
      modifies this, next
      ensures Settled(Abs()) && Holding(bits, head, tail, Hold(Bulk(h, crowded), h.chain, [], -1))
      ensures forall k :: 0 <= k < moved ==> 0 <= objs[k] < |tags| && tags[objs[k]] == Tag.Free
    {
      ghost var was := next[..];
      BulkKeeps(h, crowded);
      ReversedAre(h.v.tags, h.vac, Pass);
      forall k | 0 <= k < moved ensures 0 <= objs[k] < n && objs[k] in h.vac { assert h.vac[k] == objs[k]; }
      var bulkHead, bulkTail := BulkChain(objs, moved);
      Undisturbed(was, bits, head, tail, h);
      ghost var between := next[..];
      Free(bulkHead, bulkTail, moved, Reversed(h.vac), Pass, crowded);
      assert bulkTail in Reversed(h.vac);
      ClaimsKept(between, bits, head, tail, h);
    }

    /** Rewriting the free pointers of vacated objects disturbs neither the freelist nor the claimed run. */
    lemma Undisturbed(was: seq<int>, bits: array<bool>, head: int, tail: int, h: Hold)
      requires next.Length == n == |tags| == |was| == bits.Length && Kept(h) && h.v == Abs() && h.chain != []
      requires IsChain(was, freelist, free) && IsRun(was, head, tail, h.chain) && inuse == n - |free|
      requires forall x :: 0 <= x < n ==> (bits[x] <==> x in h.chain)
      requires forall x :: 0 <= x < n && x !in h.vac ==> next[x] == was[x]
      ensures Holding(bits, head, tail, h)
    {
      forall i | 0 <= i < |free| ensures free[i] !in h.vac { assert tags[free[i]] == Tag.Free; }
      ChainKept(was, next[..], freelist, free);
      ClaimsKept(was, bits, head, tail, h);
    }

    method ClearBits(bits: array<bool>)
      modifies bits
      ensures forall x :: 0 <= x < bits.Length ==> !bits[x]
    {
      for x := 0 to bits.Length
        invariant forall y :: 0 <= y < x ==> !bits[y]
      {
        bits[x] := false;
      }
    }

    /** The first claim of a pass over the slab. */
    method ClaimFirst(bits: array<bool>) returns (head: int, tail: int, claimed: nat)
      requires Valid() && !discarded && Idle() && (listed ==> free != []) && bits.Length == n
      modifies this, next, bits
      ensures claimed == |old(free)| && Abs() == Claimed(old(Abs()))
      ensures Holding(bits, head, tail, Hold(Abs(), old(free), [], -1))
      ensures forall x :: 0 <= x < n ==> (bits[x] <==> tags[x] == Pass)
    {
      ClearBits(bits);
      var v := Abs();
      head, tail, claimed := ClaimFree(bits, -1, -1, Hold(v, [], [], -1));
      assert v.free + [] == v.free && Mark(v.tags, [], Pass) == v.tags;
    }

    /** The pass has nothing here. */
    ghost predicate Idle()
      reads `tags
    {
      forall x :: 0 <= x < |tags| ==> tags[x] != Pass
    }

    /** slab_evacuate up to the bulk free, for a slab with something free: the free objects are claimed, the live ones
        listed, and one after the other moved. If all of them were, then here and now the pass has every object and
        the freelist is empty. */
    method Vacate(bits: array<bool>, objs: array<int>, rounds: seq<Round>)
      returns (head: int, tail: int, claimed: nat, moved: nat, live: nat)
      requires Valid() && !discarded && Idle() && (listed ==> free != []) && free != []
      requires bits.Length == n && n <= objs.Length && objs != next
      modifies this, next, bits, objs
      ensures Settled(Abs()) && Holding(bits, head, tail, Emptying(old(Abs()), rounds))
      ensures claimed == |Emptying(old(Abs()), rounds).chain|
      ensures moved <= objs.Length && objs[..moved] == Emptying(old(Abs()), rounds).vac && live == n - |old(free)|
      ensures moved == live <==> Count(tags, Held) == 0 && free == [] && Emptying(old(Abs()), rounds).chain == old(free)
      ensures moved == live ==> forall x :: 0 <= x < n ==> tags[x] == Pass
    {
      ghost var v := Abs();
      var was := free;
      EmptyingKeeps(v, rounds);
      head, tail, claimed := ClaimFirst(bits);
      live := ListLive(bits, objs);
      LiveAre(tags);
      var l := Live(tags);
      forall i | 0 <= i < |l| ensures 0 <= l[i] < n { assert l[i] in l; }
      head, tail, claimed, moved := MoveAll(bits, objs, l, live, head, tail, claimed, Hold(Abs(), was, [], -1), rounds);
      AllMoved(v, rounds);
    }

    /** What it means that all live objects were moved. */
    lemma AllMoved(v: View, rounds: seq<Round>)
      requires Fit(v) && !v.discarded && v.free != [] && forall x :: 0 <= x < |v.tags| ==> v.tags[x] != Pass
      ensures var h := Emptying(v, rounds);
              && (|h.vac| == |v.tags| - |v.free| <==> Count(h.v.tags, Held) == 0 && h.v.free == [] && h.chain == v.free)
              && (|h.vac| == |v.tags| - |v.free| ==> forall x :: 0 <= x < |h.v.tags| ==> h.v.tags[x] == Pass)
    {
      var env := Env(rounds, false, [], false);
      EmptyingKeeps(v, rounds);
      EmptiedIff(v, env);
      var h := Emptying(v, rounds);
      forall x | 0 <= x < |h.v.tags| && |h.vac| == |v.tags| - |v.free| ensures h.v.tags[x] == Pass {
        EmptiedHasAll(v, env, x);
      }
    }

    /** The end of slab_evacuate: the vacated objects go back in bulk, then the claimed ones, and with them the hold
        on the slab. */
    method Release(bits: array<bool>, objs: array<int>, moved: nat, head: int, tail: int, claimed: nat, h: Hold,
        env: Env)
      requires claimed == |h.chain| && moved <= objs.Length && objs != next && objs[..moved] == h.vac
      requires Holding(bits, head, tail, h) && Settled(Abs()) && h.chain != [] && h.hand == -1
      modifies this, next
      ensures Valid() && Settled(Abs()) && Idle() && Abs() == GivenBack(h, env)
      ensures forall x :: x in h.chain ==> 0 <= x < n && tags[x] == Tag.Free
    {
      GivenBackKeeps(h, env);
      BulkKeeps(h, env.bulkCrowded);
      if moved > 0 {
        BulkFree(objs, moved, bits, head, tail, h, env.bulkCrowded);
      }
      var h1 := Hold(Bulk(h, env.bulkCrowded), h.chain, [], -1);
      assert h.vac == [] ==> h1 == h;
      Meanwhile(bits, head, tail, h1, env.after);
      var h2 := h1.(v := Owners(h1.v, env.after));
      LastFree(bits, head, tail, claimed, h2, env.lastCrowded);
    }

    method LastFree(bits: array<bool>, head: int, tail: int, claimed: nat, h: Hold, crowded: bool)
      requires claimed == |h.chain| && Holding(bits, head, tail, h) && Settled(Abs()) && h.chain != [] &&
               h.hand == -1 && h.vac == []
      modifies this, next
      ensures Valid() && Abs() == Freed(h.v, h.chain, crowded)
    {
      Free(head, tail, claimed, h.chain, Pass, crowded);
    }

    /** slab_evacuate. */
    method Evacuate(bits: array<bool>, objs: array<int>, env: Env) returns (moved: nat, emptied: bool)
      requires Valid() && !discarded && Idle() && (Settled(Abs()) || Waiting(Abs()))
      requires bits.Length == n && n <= objs.Length && objs != next
      modifies this, next, bits, objs
      ensures moved <= objs.Length && Outcome(Abs(), objs[..moved], emptied) == Evacuated(old(Abs()), env)
      ensures Valid() && Settled(Abs()) && Idle() && forall x :: x in old(free) ==> 0 <= x < n && tags[x] == Tag.Free
    {
      var v := Abs();
      EvacuatedKeeps(v, env);
      moved, emptied := 0, false;
      NoneFree();
      var head, tail, claimed, live;
      if freelist == -1 {
        head, tail, claimed := ClaimFirst(bits);
        return;
      }
      EmptyingKeeps(v, env.rounds);
      head, tail, claimed, moved, live := Vacate(bits, objs, env.rounds);
      emptied := moved == live;
      Release(bits, objs, moved, head, tail, claimed, Emptying(v, env.rounds), env);
    }
  }

  lemma FirstOff(next: seq<int>, free: seq<int>)
    requires free != [] && IsChain(next, Head(free), free)
    ensures 0 <= free[0] < |next| && IsChain(next, next[free[0]], free[1..])
    ensures next[free[0]] == -1 <==> |free| == 1
  {
    assert Links(next, free, 0);
    if |free| > 1 { assert Links(next, free, 1); }
    var rest := free[1..];
    forall i | 0 <= i < |rest| ensures Links(next, rest, i) { assert Links(next, free, i + 1); }
  }
}
