module Reclaim {
  /**
   The kernel asks for one page of a clean ARC buffer back: abd_lru_release_folio, with the ARC's
   half of it (arc_lru_lock, arc_lru_evict) and the free path for chunks taken beforehand.

   These are the methods' own effects on the folios, buffers and the header they touch. What other
   tasks do meanwhile shows in two places: a lock may already be held, so a try fails, and an entry or
   the header may have changed between a look and the lock, which `Luck` says.
   */

  class Folio {
    var nr: nat
    var count: int
    var locked: bool
    var mapped: bool
    var marker: bool
    var priv: Abd?

    /** The references the protocol owns: one per page in the mapping and the private word's, or the
        allocation's and the marker's. */
    function Share(): int
      reads this
    {
      if mapped then nr + 1 else 2
    }

    /** A chunk of `b`, joined or not. */
    ghost predicate ChunkOf(b: Abd)
      reads this
    {
      if mapped then priv == b && !marker else priv == null && marker
    }
  }

  class Abd {
    var sg: seq<Folio>
    var mtx: bool
    var lru: bool
    var prelocked: bool
    var reclaiming: Folio?
    var owner: Header?
    var alive: bool
  }

  datatype ArcState = Anon | Mru | MruGhost | Mfu | MfuGhost | L2cOnly | Uncached

  /** What a header is being used for: whether it has its L1 part, I/O or an L2 write in progress, buffers handed
      out, a callback waiting, how many holds; its state, and whether it is linked there. */
  datatype Use = Use(
    l1: bool, io: bool, l2writing: bool, bufs: bool, acb: bool, refs: nat, state: ArcState, linked: bool)

  /** `held`: its sublist's or the l2arc device's lock is held by this very thread. */
  class Header {
    var lock: bool
    var empty: bool
    var hashed: bool
    var use: Use
    var held: bool
    var pabd: Abd?
    var rabd: Abd?
  }

  twostate predicate SameAbd(b: Abd)
    reads b
  {
    b.sg == old(b.sg) && b.mtx == old(b.mtx) && b.lru == old(b.lru) && b.prelocked == old(b.prelocked) &&
    b.reclaiming == old(b.reclaiming) && b.owner == old(b.owner) && b.alive == old(b.alive)
  }

  /** A buffer and all its chunks are as they were. */
  twostate predicate Intact(b: Abd?)
    reads b, if b == null then [] else b.sg
  {
    b != null ==> SameAbd(b) && forall f :: f in b.sg ==> Same(f)
  }

  ghost predicate Distinct(sg: seq<Folio>) { forall i, j :: 0 <= i < j < |sg| ==> sg[i] != sg[j] }

  ghost predicate Wf(b: Abd)
    reads b, b.sg
  {
    b.alive && Distinct(b.sg) && forall f :: f in b.sg ==> f.ChunkOf(b)
  }

  /** The memory of a buffer: the ABD and its folios. */
  ghost function Mem(b: Abd?): set<object>
    reads b
  {
    if b == null then {} else {b} + set f: Folio | f in b.sg
  }

  /** What others do at the moments that matter: which entries of the folio's buffer and of the header's other one are
      repointed between grab and look, whether the header changes hash chains, whether arc_evict_hdr finds
      anything to evict. */
  datatype Luck = Luck(stale: nat -> bool, staleOther: nat -> bool, moved: bool, evicts: bool)

  /** Every chunk but `keep` is unlocked and stays behind its entry. */
  ghost predicate Loose(b: Abd, keep: Folio?, stale: nat -> bool)
    reads b, b.sg
  {
    forall i: nat :: i < |b.sg| && b.sg[i] != keep ==> !b.sg[i].locked && !stale(i)
  }

  // ----- what happened to one folio -----

  twostate predicate SameButHeld(f: Folio)
    reads f
  {
    f.nr == old(f.nr) && f.mapped == old(f.mapped) && f.marker == old(f.marker) && f.priv == old(f.priv)
  }

  twostate predicate Same(f: Folio)
    reads f
  {
    SameButHeld(f) && f.locked == old(f.locked) && f.count == old(f.count)
  }

  /** Referenced and locked by a try. */
  twostate predicate Claimed(f: Folio)
    reads f
  {
    SameButHeld(f) && !old(f.locked) && f.locked && f.count == old(f.count) + 1
  }

  twostate predicate Returned(f: Folio)
    reads f
  {
    SameButHeld(f) && !f.locked && f.count == old(f.count) - 1
  }

  /** Given up by a free path that holds it locked and referenced once. */
  twostate predicate Dropped(f: Folio)
    reads f
  {
    !f.locked && !f.mapped && !f.marker && f.priv == null && f.count == old(f.count) - old(f.Share()) - 1
  }

  /** Only the private word and its reference are gone; the kernel does the rest. */
  twostate predicate Detached(f: Folio)
    reads f
  {
    f.priv == null && f.nr == old(f.nr) && f.locked == old(f.locked) && f.mapped == old(f.mapped) &&
    f.marker == old(f.marker) && f.count == old(f.count) - 1
  }

  /** Everything the protocol held on a chunk is gone, and everyone else's references are still there. */
  twostate predicate LetGo(f: Folio)
    reads f
  {
    !f.mapped && !f.marker && f.priv == null && f.locked == old(f.locked) && f.count == old(f.count) - old(f.Share())
  }

  // ----- the buffer layer -----

  /** abd_lru_unlock_siblings. */
  method UnlockSiblings(b: Abd, keep: Folio?, n: nat)
    requires n <= |b.sg| && Distinct(b.sg)
    modifies b.sg
    ensures forall i :: 0 <= i < n && b.sg[i] != keep ==> Returned(b.sg[i])
    ensures forall i :: 0 <= i < |b.sg| && (i >= n || b.sg[i] == keep) ==> Same(b.sg[i])
  {
    for i := 0 to n
      invariant forall j :: 0 <= j < i && b.sg[j] != keep ==> Returned(b.sg[j])
      invariant forall j :: 0 <= j < |b.sg| && (j >= i || b.sg[j] == keep) ==> Same(b.sg[j])
    {
      var sib := b.sg[i];
      if sib != keep {
        sib.locked := false;
        sib.count := sib.count - 1;
      }
    }
  }

  /** One chunk of the sweep: a reference, a try for the lock, and a look whether the entry still names it. */
  method ClaimOne(sib: Folio, stale: bool) returns (ok: bool)
    modifies sib
    ensures ok <==> !old(sib.locked) && !stale
    ensures if ok then Claimed(sib) else Same(sib)
  {
    sib.count := sib.count + 1;
    if !sib.locked {
      sib.locked := true;
      if !stale {
        return true;
      }
      sib.locked := false;
    }
    sib.count := sib.count - 1;
    return false;
  }

  /** The sweep of abd_lru_try_prelock and abd_lru_release_folio over a buffer's entries: `keep`, the folio
      reclaim was called on, is already the caller's. On a miss everything taken so far is given back. */
  method ClaimSiblings(b: Abd, keep: Folio?, stale: nat -> bool) returns (ok: bool)
    requires Distinct(b.sg)
    modifies b.sg
    ensures ok <==> old(Loose(b, keep, stale))
    ensures ok ==> forall f :: f in b.sg && f != keep ==> Claimed(f)
    ensures forall f :: f in b.sg && (!ok || f == keep) ==> Same(f)
  {
    for i := 0 to |b.sg|
      invariant forall j :: 0 <= j < i && b.sg[j] != keep ==> Claimed(b.sg[j]) && !stale(j)
      invariant forall j :: 0 <= j < |b.sg| && (j >= i || b.sg[j] == keep) ==> Same(b.sg[j])
    {
      if b.sg[i] == keep {
        continue;  // its grab's reference goes straight back
      }
      var taken := ClaimOne(b.sg[i], stale(i));
      if !taken {
        UnlockSiblings(b, keep, i);
        return false;
      }
    }
    return true;
  }

  /** Nothing to take, or the mutex and every chunk free. */
  ghost predicate Takable(b: Abd?, stale: nat -> bool)
    reads b, if b == null then [] else b.sg
  {
    b == null || !b.lru || (!b.mtx && Loose(b, null, stale))
  }

  /** abd_lru_try_prelock. */
  method TryPrelock(b: Abd?, stale: nat -> bool) returns (ok: bool)
    requires b != null ==> Distinct(b.sg)
    modifies Mem(b)
    ensures ok <==> old(Takable(b, stale))
    ensures b != null ==> b.sg == old(b.sg)
    ensures !ok || b == null || !old(b.lru) ==> Intact(b)
    ensures ok && b != null && old(b.lru) ==>
              && b.mtx && b.prelocked && b.lru && b.alive == old(b.alive)
              && b.reclaiming == old(b.reclaiming) && b.owner == old(b.owner) && !old(b.mtx)
              && forall f :: f in b.sg ==> Claimed(f)
  {
    if b == null || !b.lru {
      return true;
    }
    if b.mtx {
      return false;
    }
    b.mtx := true;
    ok := ClaimSiblings(b, null, stale);
    if !ok {
      b.mtx := false;
      return false;
    }
    b.prelocked := true;
  }

  /** abd_lru_prelock_release. */
  method PrelockRelease(b: Abd?)
    requires b != null ==> Distinct(b.sg)
    modifies Mem(b)
    ensures b != null ==> b.sg == old(b.sg)
    ensures b == null || !old(b.prelocked) ==> Intact(b)
    ensures b != null && old(b.prelocked) ==>
              && !b.mtx && !b.prelocked && b.lru == old(b.lru) && b.alive == old(b.alive)
              && b.reclaiming == old(b.reclaiming) && b.owner == old(b.owner)
              && forall f :: f in b.sg ==> Returned(f)
  {
    if b == null || !b.prelocked {
      return;
    }
    b.prelocked := false;
    UnlockSiblings(b, null, |b.sg|);
    b.mtx := false;
  }

  /** abd_lru_free_chunks with every chunk taken beforehand: nothing is waited for. */
  method FreeChunks(b: Abd)
    requires Wf(b) && b.mtx && b.prelocked
    requires forall f :: f in b.sg ==> f.locked && (f == b.reclaiming ==> f.mapped)
    modifies Mem(b)
    ensures b.sg == old(b.sg) && !b.mtx && b.alive == old(b.alive)
    ensures forall f :: f in b.sg ==> if f == old(b.reclaiming) then Detached(f) else Dropped(f)
  {
    for i := 0 to |b.sg|
      invariant SameAbd(b)
      invariant forall j :: 0 <= j < i ==> if b.sg[j] == b.reclaiming then Detached(b.sg[j]) else Dropped(b.sg[j])
      invariant forall j :: i <= j < |b.sg| ==> Same(b.sg[j])
    {
      var f := b.sg[i];
      if f == b.reclaiming {
        f.priv := null;
        f.count := f.count - 1;
      } else if f.mapped {
        f.mapped := false;
        f.count := f.count - f.nr;
        f.priv := null;
        f.count := f.count - 1;
        f.locked := false;
        f.count := f.count - 1;
      } else {
        f.locked := false;
        f.marker := false;
        f.count := f.count - 1;
        f.count := f.count - 1;
        f.count := f.count - 1;
      }
    }
    b.mtx := false;
  }

  /** The chunks of a buffer that never joined: the marker and the allocation go, no lock is involved. */
  method FreeUnjoined(b: Abd)
    requires Wf(b) && forall f :: f in b.sg ==> !f.mapped
    modifies b.sg
    ensures forall f :: f in b.sg ==> LetGo(f)
  {
    for i := 0 to |b.sg|
      invariant forall j :: 0 <= j < i ==> LetGo(b.sg[j])
      invariant forall j :: i <= j < |b.sg| ==> Same(b.sg[j])
    {
      var f := b.sg[i];
      assert old(f.ChunkOf(b));
      f.marker := false;
      f.count := f.count - 1;
      f.count := f.count - 1;
    }
  }

  /** A buffer the reclaimer may free: joined and taken, or never joined. */
  ghost predicate Ready(b: Abd)
    reads b, b.sg
  {
    && Wf(b)
    && (b.lru ==> b.mtx && b.prelocked && forall f :: f in b.sg ==> f.locked && (f == b.reclaiming ==> f.mapped))
    && (!b.lru ==> forall f :: f in b.sg ==> !f.mapped)
  }

  /** What is left of a chunk: with the kernel still to come, taken beforehand, or never joined. */
  twostate predicate Freed(f: Folio, lru: bool, reclaiming: Folio?)
    reads f
  {
    if !lru then LetGo(f) else if f == reclaiming then Detached(f) else Dropped(f)
  }

  /** abd_free. */
  method FreeAbd(b: Abd?)
    requires b != null ==> Ready(b)
    modifies Mem(b)
    ensures b != null ==> b.sg == old(b.sg) && !b.alive
    ensures b != null ==> forall f :: f in b.sg ==> Freed(f, old(b.lru), old(b.reclaiming))
  {
    if b == null {
      return;
    }
    if b.lru {
      FreeChunks(b);
    } else {
      FreeUnjoined(b);
    }
    b.alive := false;
  }

  // ----- the ARC's half -----

  twostate predicate SameHdr(h: Header)
    reads h
  {
    h.lock == old(h.lock) && h.empty == old(h.empty) && h.hashed == old(h.hashed) && h.use == old(h.use) &&
    h.held == old(h.held) && h.pabd == old(h.pabd) && h.rabd == old(h.rabd)
  }

  /** arc_lru_lock: `moved` stands for the header having changed hash chains before the lock was taken. */
  method LruLock(h: Header, moved: bool) returns (ok: bool)
    modifies h`lock
    ensures ok <==> !h.empty && h.hashed && !old(h.lock) && !moved
    ensures h.lock == (ok || old(h.lock))
  {
    if h.empty || h.lock {
      return false;
    }
    h.lock := true;
    if h.empty || moved || !h.hashed {
      h.lock := false;
      return false;
    }
    return true;
  }

  /** The header's buffer that is not `b`. */
  function Other(h: Header, b: Abd): Abd?
    reads h
  {
    if h.pabd != null && h.pabd != b then h.pabd else if h.rabd != null && h.rabd != b then h.rabd else null
  }

  /** Two buffers and all their folios are different memory. */
  ghost predicate Disjoint(b: Abd?, c: Abd?)
    reads b, c
  {
    Mem(b) !! Mem(c)
  }

  /** A buffer is gone, and its chunks are what the free path leaves of them. */
  twostate predicate FreedAll(b: Abd?, sg: seq<Folio>)
    reads b, sg
  {
    b != null ==> !b.alive && b.sg == sg && forall f :: f in sg ==> Freed(f, old(b.lru), old(b.reclaiming))
  }

  /** arc_evict_hdr: it may find nothing worth evicting; otherwise it frees every buffer of the header. */
  method EvictHdr(h: Header, evicts: bool) returns (evicted: bool)
    requires h.pabd != null ==> Ready(h.pabd)
    requires h.rabd != null ==> Ready(h.rabd)
    requires Disjoint(h.pabd, h.rabd)
    modifies h`pabd, h`rabd, Mem(h.pabd), Mem(h.rabd)
    ensures evicted == evicts
    ensures !evicted ==> SameHdr(h) && Intact(h.pabd) && Intact(h.rabd)
    ensures evicted ==> h.pabd == null && h.rabd == null
    ensures evicted ==> FreedAll(old(h.pabd), old(if h.pabd == null then [] else h.pabd.sg))
    ensures evicted ==> FreedAll(old(h.rabd), old(if h.rabd == null then [] else h.rabd.sg))
  {
    evicted := evicts;
    if evicted {
      FreeAbd(h.pabd);
      FreeAbd(h.rabd);
      h.pabd, h.rabd := null, null;
    }
  }

  /** A buffer whose chunks nobody has taken yet. */
  ghost predicate Untaken(b: Abd)
    reads b, b.sg
  {
    Wf(b) && !b.prelocked && b.reclaiming == null && (!b.lru ==> forall f :: f in b.sg ==> !f.mapped)
  }

  /** The header's buffers are two, and the one that is not `b` is nobody's yet. */
  ghost predicate Bound(h: Header, b: Abd)
    reads h, b, Other(h, b), if Other(h, b) == null then [] else Other(h, b).sg
  {
    && (h.pabd != null ==> h.pabd != h.rabd)
    && Disjoint(b, Other(h, b))
    && (Other(h, b) != null ==> Untaken(Other(h, b)))
  }

  twostate predicate Gone(b: Abd?, sg: seq<Folio>)
    reads b, sg
  {
    b != null ==> !b.alive && b.sg == sg && forall f :: f in sg ==> LetGo(f)
  }

  /** A header nobody uses, in a state that is evicted from, and linked there. */
  ghost predicate Unused(u: Use) {
    && u.l1 && !u.io && !u.l2writing && !u.bufs && !u.acb && u.refs == 0
    && u.state in {Mru, Mfu, Uncached} && u.linked
  }

  /** The header may be evicted along with `b`, and its other buffer can be taken. */
  ghost predicate Evictable(h: Header, b: Abd, luck: Luck)
    reads h, Other(h, b), if Other(h, b) == null then [] else Other(h, b).sg
  {
    Unused(h.use) && !h.held && (h.pabd == b || h.rabd == b) && Takable(Other(h, b), luck.staleOther) && luck.evicts
  }

  /** The end of arc_lru_evict: the other buffer is taken, and both go or nothing does. */
  method EvictBoth(h: Header, b: Abd, luck: Luck) returns (ok: bool)
    requires h.lock && b.lru && Ready(b) && Bound(h, b) && (h.pabd == b || h.rabd == b)
    modifies h`pabd, h`rabd, Mem(b), Mem(Other(h, b))
    ensures ok <==> luck.evicts && old(Takable(Other(h, b), luck.staleOther))
    ensures !ok ==> SameHdr(h) && Intact(b) && Intact(Other(h, b))
    ensures ok ==> h.pabd == null && h.rabd == null
    ensures ok ==> FreedAll(b, old(b.sg))
    ensures ok ==> Gone(old(Other(h, b)), old(if Other(h, b) == null then [] else Other(h, b).sg))
  {
    var other := Other(h, b);
    var taken := TryPrelock(other, luck.staleOther);
    if !taken {
      return false;
    }
    ok := EvictHdr(h, luck.evicts);
    if !ok {
      PrelockRelease(other);
      return false;
    }
  }

  /** arc_lru_evict. */
  method LruEvict(h: Header, b: Abd, luck: Luck) returns (ok: bool)
    requires h.lock && b.lru && Ready(b) && Bound(h, b)
    modifies h`pabd, h`rabd, Mem(b), Mem(Other(h, b))
    ensures ok <==> old(Evictable(h, b, luck))
    ensures !ok ==> SameHdr(h) && Intact(b) && Intact(Other(h, b))
    ensures ok ==> h.pabd == null && h.rabd == null
    ensures ok ==> FreedAll(b, old(b.sg))
    ensures ok ==> Gone(old(Other(h, b)), old(if Other(h, b) == null then [] else Other(h, b).sg))
  {
    var u := h.use;
    if !u.l1 || u.io || u.l2writing || u.bufs || u.acb || u.refs != 0 || (h.pabd != b && h.rabd != b) {
      return false;
    }
    if (u.state != Mru && u.state != Mfu && u.state != Uncached) || !u.linked {
      return false;
    }
    if h.held {
      return false;
    }
    ok := EvictBoth(h, b, luck);
  }

  // ----- what the kernel calls -----

  /** A folio as the kernel presents it: locked, and if its private word names a buffer, in the mapping and
      one of that buffer's chunks, none of which the protocol has claimed. */
  ghost predicate Presented(f: Folio)
    reads f, f.priv, if f.priv == null then [] else f.priv.sg
  {
    && f.locked
    && (f.priv != null ==> Untaken(f.priv) && f.priv.lru && f in f.priv.sg && f.mapped)
  }

  ghost predicate Owned(b: Abd?)
    reads b, if b == null then {} else {b.owner}
    reads if b == null || b.owner == null then {} else {Other(b.owner, b)}
    reads if b == null || b.owner == null || Other(b.owner, b) == null then [] else Other(b.owner, b).sg
  {
    b != null && b.owner != null ==> Bound(b.owner, b)
  }

  /** The header's other buffer, which goes with the folio's. */
  function Second(b: Abd?): Abd?
    reads b, if b == null then {} else {b.owner}
  {
    if b == null || b.owner == null then null else Other(b.owner, b)
  }

  /** Everything of a buffer but its mutex is as it was, and the mutex is free. */
  twostate predicate IntactFree(b: Abd)
    reads b, b.sg
  {
    b.sg == old(b.sg) && !b.mtx && b.lru == old(b.lru) && b.prelocked == old(b.prelocked) &&
    b.reclaiming == old(b.reclaiming) && b.owner == old(b.owner) && b.alive == old(b.alive) &&
    forall f :: f in b.sg ==> Same(f)
  }

  /** Everything of a header but its lock is as it was, and the lock is free. */
  twostate predicate SameHdrFree(h: Header)
    reads h
  {
    !h.lock && h.empty == old(h.empty) && h.hashed == old(h.hashed) && h.use == old(h.use) &&
    h.held == old(h.held) && h.pabd == old(h.pabd) && h.rabd == old(h.rabd)
  }

  /** The owner freed nothing: the claims, the flag and both mutexes are given back. */
  method GiveBack(folio: Folio, b: Abd, h: Header)
    requires Distinct(b.sg)
    modifies b`prelocked, b`reclaiming, b`mtx, b.sg, h`lock
    ensures !b.prelocked && b.reclaiming == null && !b.mtx && !h.lock
    ensures forall f :: f in b.sg ==> if f == folio then Same(f) else Returned(f)
  {
    b.prelocked := false;
    b.reclaiming := null;
    UnlockSiblings(b, folio, |b.sg|);
    b.mtx := false;
    h.lock := false;
  }

  /** The eviction itself, every chunk of the buffer claimed: the owner frees the whole ABD, or nothing is done
      and the claims are returned. */
  method EvictClaimed(folio: Folio, b: Abd, h: Header, luck: Luck) returns (ok: bool)
    requires Wf(b) && folio in b.sg && folio.mapped && folio.locked && b.lru && !b.prelocked && b.reclaiming == null
    requires b.mtx && h.lock && Bound(h, b)
    requires forall f :: f in b.sg && f != folio ==> f.locked
    modifies h, Mem(b), Mem(Other(h, b))
    ensures ok <==> old(Evictable(h, b, luck))
    ensures b.sg == old(b.sg)
    ensures !ok ==> SameHdrFree(h) && Intact(old(Other(h, b))) && Same(folio)
    ensures !ok ==> !b.mtx && b.lru && !b.prelocked && b.reclaiming == null && b.owner == old(b.owner) && b.alive
    ensures !ok ==> forall f :: f in b.sg && f != folio ==> Returned(f)
    ensures ok ==> !h.lock && h.pabd == null && h.rabd == null && !b.alive && Detached(folio)
    ensures ok ==> forall f :: f in b.sg && f != folio ==> Dropped(f)
    ensures ok ==> Gone(old(Other(h, b)), old(if Other(h, b) == null then [] else Other(h, b).sg))
  {
    b.reclaiming := folio;
    b.prelocked := true;
    var evicted := LruEvict(h, b, luck);
    if folio.priv != null {
      GiveBack(folio, b, h);
      return false;
    }
    h.lock := false;
    return true;
  }

  /** Every other chunk is claimed, or nothing is and both locks are dropped. */
  method ClaimOrLeave(folio: Folio, b: Abd, h: Header, stale: nat -> bool) returns (ok: bool)
    requires Distinct(b.sg) && b.mtx && h.lock
    modifies b`mtx, b.sg, h`lock
    ensures ok <==> old(Loose(b, folio, stale))
    ensures ok ==> SameAbd(b) && SameHdr(h) && forall f :: f in b.sg ==> if f == folio then Same(f) else Claimed(f)
    ensures !ok ==> SameHdrFree(h) && IntactFree(b)
  {
    ok := ClaimSiblings(b, folio, stale);
    if !ok {
      b.mtx := false;
      h.lock := false;
    }
  }

  /** The part of abd_lru_release_folio under abd_mtx and the owner's lock: it drops both. */
  method ReleaseOwned(folio: Folio, b: Abd, h: Header, luck: Luck) returns (ok: bool)
    requires Untaken(b) && folio in b.sg && folio.mapped && folio.locked && b.lru && b.mtx && h.lock && Bound(h, b)
    modifies h, Mem(b), Mem(Other(h, b))
    ensures ok <==> old(Loose(b, folio, luck.stale) && Evictable(h, b, luck))
    ensures b.sg == old(b.sg)
    ensures !ok ==> SameHdrFree(h) && Intact(old(Other(h, b))) && IntactFree(b)
    ensures ok ==> !h.lock && h.pabd == null && h.rabd == null && !b.alive && Detached(folio)
    ensures ok ==> forall f :: f in b.sg && f != folio ==> LetGo(f)
    ensures ok ==> Gone(old(Other(h, b)), old(if Other(h, b) == null then [] else Other(h, b).sg))
  {
    var other := Other(h, b);
    if other != null {
      assert forall f: Folio :: f in b.sg ==> f in Mem(b);
      forall i: nat | i < |other.sg| ensures other.sg[i] !in b.sg { assert other.sg[i] in Mem(other); }
      assert other in Mem(other) && other != b;
    }
    var taken := ClaimOrLeave(folio, b, h, luck.stale);
    if other != null {
      forall i: nat | i < |other.sg| ensures Same(other.sg[i]) { }
    }
    if !taken {
      return false;
    }
    assert Takable(other, luck.staleOther) == old(Takable(other, luck.staleOther));
    ok := EvictClaimed(folio, b, h, luck);
  }

  /** The header has an identity and is in the hash table. */
  predicate Findable(h: Header)
    reads h
  {
    !h.empty && h.hashed
  }

  /** The buffer's mutex and its owner's lock, both or neither, each by a try. */
  method LockOwner(b: Abd, moved: bool) returns (ok: bool)
    modifies b`mtx, (if b.owner == null then {} else {b.owner})`lock
    ensures ok <==> !old(b.mtx) && b.owner != null && !old(b.owner.lock) && Findable(b.owner) && !moved
    ensures b.mtx == (ok || old(b.mtx)) && (b.owner != null ==> b.owner.lock == (ok || old(b.owner.lock)))
  {
    if b.mtx {
      return false;
    }
    b.mtx := true;
    var locked := false;
    if b.owner != null {
      locked := LruLock(b.owner, moved);
    }
    if !locked {
      b.mtx := false;
    }
    return locked;
  }

  /** Mutex and hash lock are free, the header is found, every other chunk can be taken, and the header may be
      evicted. */
  ghost predicate Releasable(folio: Folio, b: Abd, luck: Luck)
    reads b, b.sg, b.owner, Second(b), if Second(b) == null then [] else Second(b).sg
  {
    && !b.mtx && b.owner != null && !b.owner.lock && Findable(b.owner) && !luck.moved
    && Loose(b, folio, luck.stale) && Evictable(b.owner, b, luck)
  }

  /** The reasons for a refusal, one by one: the buffer's mutex is taken; it has no header, or one that is locked,
      empty, not hashed or gone by then; a chunk is locked or replaced; the header has no data of its own, is in I/O or
      being written to the second level, has buffers, a callback or references, is in no list of a state that is
      evicted, or is held; the buffer is not the header's; the other buffer's mutex is taken, or a chunk of it locked or
      replaced; or the eviction itself does not happen. */
  lemma RefusedIff(folio: Folio, b: Abd, luck: Luck)
    ensures !Releasable(folio, b, luck) <==>
            || b.mtx || b.owner == null || luck.moved || !luck.evicts
            || b.owner.lock || b.owner.empty || !b.owner.hashed || b.owner.held
            || (exists i: nat :: i < |b.sg| && b.sg[i] != folio && (b.sg[i].locked || luck.stale(i)))
            || (var u := b.owner.use;
                || !u.l1 || u.io || u.l2writing || u.bufs || u.acb || u.refs > 0
                || u.state !in {Mru, Mfu, Uncached} || !u.linked)
            || (b.owner.pabd != b && b.owner.rabd != b)
            || (var o := Other(b.owner, b);
                o != null && o.lru &&
                  (o.mtx || exists i: nat :: i < |o.sg| && (o.sg[i].locked || luck.staleOther(i))))
  {
  }

  /** A header without buffers, unlocked. */
  predicate Emptied(h: Header)
    reads h
  {
    h.pabd == null && h.rabd == null && !h.lock
  }

  /** The rest of abd_lru_release_folio once the folio's count was found exact. */
  method ReleaseJoined(folio: Folio, b: Abd, luck: Luck) returns (ok: bool)
    requires Untaken(b) && folio in b.sg && folio.mapped && folio.locked && b.lru && Owned(b)
    modifies Mem(b), Mem(Second(b)), if b.owner == null then {} else {b.owner}
    ensures ok <==> old(Releasable(folio, b, luck))
    ensures b.sg == old(b.sg)
    ensures !ok ==> Intact(b) && Intact(old(Second(b))) && (old(b.owner) != null ==> SameHdr(old(b.owner)))
    ensures ok ==> old(b.owner) != null && !b.alive && Detached(folio) && Emptied(old(b.owner))
    ensures ok ==> forall f :: f in b.sg && f != folio ==> LetGo(f)
    ensures ok ==> Gone(old(Second(b)), old(if Second(b) == null then [] else Second(b).sg))
  {
    ghost var other := Second(b);
    assert other != null ==> other in Mem(other) && b in Mem(b) && other != b;
    var owned := LockOwner(b, luck.moved);
    if !owned {
      return false;
    }
    assert Takable(other, luck.staleOther) == old(Takable(other, luck.staleOther));
    var h := b.owner;
    ok := ReleaseOwned(folio, b, h, luck);
    if other != null {
      assert other.sg == old(other.sg);
    }
  }

  /** abd_lru_release_folio. On false nothing at all has changed: every lock, reference and mutex taken on
      the way is back. On true the folio keeps its lock and its mapping and has lost the private word with
      its reference; its buffer and the header's other one are gone, and every other chunk of both has
      lost exactly what the protocol held on it. */
  method ReleaseFolio(folio: Folio, luck: Luck) returns (ok: bool)
    requires Presented(folio) && Owned(folio.priv)
    modifies Mem(folio.priv), Mem(Second(folio.priv)), if folio.priv == null then {} else {folio.priv.owner}
    ensures !ok ==> old(folio.priv) != null && Intact(old(folio.priv)) && Intact(old(Second(folio.priv))) && Same(folio)
    ensures !ok && old(folio.priv).owner != null ==> SameHdr(old(folio.priv.owner))
    ensures ok <==> old(folio.priv == null || (folio.count == folio.nr + 2 && Releasable(folio, folio.priv, luck)))
    ensures ok && old(folio.priv) != null ==>
              && old(folio.priv.owner) != null && !old(folio.priv.owner.lock) && !old(folio.priv.mtx)
              && !old(folio.priv.owner.empty) && old(folio.priv.owner.hashed) && !old(folio.priv.owner.held)
              && var u := old(folio.priv.owner.use);
                 u.l1 && !u.io && !u.l2writing && !u.bufs && !u.acb && u.refs == 0 && u.linked
                 && u.state in {Mru, Mfu, Uncached}
    ensures old(folio.priv) == null ==> Same(folio)
    ensures ok && old(folio.priv) != null ==>
              && Detached(folio)
              && old(folio.count) == old(folio.nr) + 2
              && !old(folio.priv).alive
              && (forall f :: f in old(folio.priv.sg) && f != folio ==> LetGo(f))
              && Gone(old(Second(folio.priv)), old(if Second(folio.priv) == null then [] else Second(folio.priv).sg))
              && Emptied(old(folio.priv.owner))
  {
    if folio.priv == null {
      return true;
    }
    if folio.count != folio.nr + 2 {
      return false;
    }
    ok := ReleaseJoined(folio, folio.priv, luck);
  }
}
