module CompactionScan {
  /**
   Compaction's free scanner: isolate_freepages_block and the retry part of compaction_alloc, as
   patches/kernel/compaction-large-folio.patch leaves them.
   */
  import opened Basics

  const NR_PAGE_ORDERS: nat := 11
  const MAX_PAGE_ORDER: nat := NR_PAGE_ORDERS - 1
  const PAGEBLOCK: nat := 512
  const COMPACT_CLUSTER_MAX: nat := 32
  const COMPACT_FREE_LIMIT: nat := COMPACT_CLUSTER_MAX * 32

  /** What a look at a page frame finds. The order of a compound page is read without any lock, so it may be anything;
      for a tail page it reads as 0. */
  datatype Seen = Compound(order: nat) | Buddy(order: nat) | Other

  /** How many frames what was seen at a frame is taken to reach over: an order no page can have counts for nothing. */
  function Reach(x: Seen): nat {
    match x
    case Compound(o) => if o <= MAX_PAGE_ORDER then Pow2(o) else 1
    case Buddy(o) => Pow2(o)
    case Other => 1
  }

  /** Free blocks are aligned to their size, and nothing seen before one is read as reaching into it. */
  ghost predicate Sound(look: nat -> Seen) {
    && (forall h: nat :: look(h).Buddy? ==> look(h).order < NR_PAGE_ORDERS && h % Pow2(look(h).order) == 0)
    && forall b: nat, h: nat :: b < h && look(h).Buddy? ==> b + Reach(look(b)) <= h
  }

  /** The pages of the isolated blocks on the lists, one list per order. */
  function Pages(lists: seq<seq<nat>>): nat {
    if lists == [] then 0 else Pages(lists[..|lists| - 1]) + |lists[|lists| - 1]| * Pow2(|lists| - 1)
  }

  lemma {:induction false} PagesUpdate(lists: seq<seq<nat>>, o: nat, l: seq<nat>)
    requires o < |lists|
    ensures Pages(lists[o := l]) == Pages(lists) + |l| * Pow2(o) - |lists[o]| * Pow2(o)
  {
    var n := |lists| - 1;
    if o < n {
      PagesUpdate(lists[..n], o, l);
      assert lists[o := l][..n] == lists[..n][o := l];
    } else {
      assert lists[o := l][..n] == lists[..n];
    }
  }

  lemma PagesAppend(lists: seq<seq<nat>>, o: nat, pfn: nat)
    requires o < |lists|
    ensures Pages(lists[o := lists[o] + [pfn]]) == Pages(lists) + Pow2(o)
  {
    PagesUpdate(lists, o, lists[o] + [pfn]);
    assert (|lists[o]| + 1) * Pow2(o) == |lists[o]| * Pow2(o) + Pow2(o);
  }

  lemma PagesAdd(lists: seq<seq<nat>>, o: nat, pfn: nat)
    requires o < |lists|
    ensures Pages(lists[o := [pfn] + lists[o]]) == Pages(lists) + Pow2(o)
  {
    PagesUpdate(lists, o, [pfn] + lists[o]);
    assert (|lists[o]| + 1) * Pow2(o) == |lists[o]| * Pow2(o) + Pow2(o);
  }

  lemma PagesTake(lists: seq<seq<nat>>, o: nat)
    requires o < |lists| && lists[o] != []
    ensures Pages(lists[o := lists[o][1..]]) == Pages(lists) - Pow2(o)
  {
    PagesUpdate(lists, o, lists[o][1..]);
    assert |lists[o]| * Pow2(o) == (|lists[o]| - 1) * Pow2(o) + Pow2(o);
  }

  predicate Lies(lists: seq<seq<nat>>, o: nat, i: nat, x: nat)
    requires o < |lists| && i < |lists[o]|
  {
    lists[o][i] <= x < lists[o][i] + Pow2(o)
  }

  /** Frame `x` lies in one of the isolated blocks. */
  ghost predicate Holds(lists: seq<seq<nat>>, x: nat) {
    exists o: nat, i: nat :: o < |lists| && i < |lists[o]| && Lies(lists, o, i, x)
  }

  /** `now` holds exactly the frames of `was` and those of a further block. */
  ghost predicate HoldsMore(was: seq<seq<nat>>, now: seq<seq<nat>>, lo: nat, hi: nat) {
    forall x: nat :: Holds(now, x) <==> Holds(was, x) || lo <= x < hi
  }

  /** Blocks are only added, behind the ones there were. */
  ghost predicate Grown(was: seq<seq<nat>>, now: seq<seq<nat>>) {
    |was| == |now| && forall o :: 0 <= o < |was| ==> was[o] <= now[o]
  }

  lemma HoldsBack(lists: seq<seq<nat>>, o: nat, pfn: nat, k: nat, i: nat, x: nat)
    requires o < |lists| && k < |lists|
    requires var now := lists[o := [pfn] + lists[o]]; i < |now[k]| && Lies(now, k, i, x)
    ensures Holds(lists, x) || pfn <= x < pfn + Pow2(o)
  {
    var now := lists[o := [pfn] + lists[o]];
    if k != o {
      assert now[k] == lists[k] && Lies(lists, k, i, x);
    } else if i > 0 {
      assert now[o][i] == lists[o][i - 1] && Lies(lists, o, i - 1, x);
    }
  }

  lemma HoldsOn(lists: seq<seq<nat>>, o: nat, pfn: nat, k: nat, i: nat, x: nat)
    requires o < |lists| && k < |lists| && i < |lists[k]| && Lies(lists, k, i, x)
    ensures Holds(lists[o := [pfn] + lists[o]], x)
  {
    var now := lists[o := [pfn] + lists[o]];
    var i' := if k == o then i + 1 else i;
    assert now[k][i'] == lists[k][i] && Lies(now, k, i', x);
  }

  /** A block at the head of its list adds just its own frames. */
  lemma FirstHolds(lists: seq<seq<nat>>, o: nat, pfn: nat)
    requires o < |lists|
    ensures HoldsMore(lists, lists[o := [pfn] + lists[o]], pfn, pfn + Pow2(o))
  {
    var now := lists[o := [pfn] + lists[o]];
    forall x: nat ensures Holds(now, x) <==> Holds(lists, x) || pfn <= x < pfn + Pow2(o) {
      if Holds(now, x) {
        var k: nat, i: nat :| k < |now| && i < |now[k]| && Lies(now, k, i, x);
        HoldsBack(lists, o, pfn, k, i, x);
      }
      if Holds(lists, x) {
        var k: nat, i: nat :| k < |lists| && i < |lists[k]| && Lies(lists, k, i, x);
        HoldsOn(lists, o, pfn, k, i, x);
      }
      if pfn <= x < pfn + Pow2(o) { assert Lies(now, o, 0, x); }
    }
  }

  lemma FirstTaken(lists: seq<seq<nat>>, o: nat)
    requires o < |lists| && lists[o] != []
    ensures HoldsMore(lists[o := lists[o][1..]], lists, lists[o][0], lists[o][0] + Pow2(o))
  {
    var rest := lists[o := lists[o][1..]];
    assert [lists[o][0]] + rest[o] == lists[o];
    assert rest[o := lists[o]] == lists;
    FirstHolds(rest, o, lists[o][0]);
  }

  // ----- a scan of the zone, as its caller sees it -----

  /** What isolate_freepages does to the scanner: it isolates a block, moves down, or finds the zone lock contended. */
  datatype Scan = Adds(pfn: nat, order: nat) | MovesDown(pfn: nat) | Contends

  datatype Scanner = Scanner(lists: seq<seq<nat>>, nrFree: nat, freePfn: nat, contended: bool)

  function ScanOne(v: Scanner, st: Scan): Scanner {
    match st
    case Adds(pfn, order) =>
      if order < |v.lists| then
        v.(lists := v.lists[order := v.lists[order] + [pfn]], nrFree := v.nrFree + Pow2(order))
      else v
    case MovesDown(pfn) => if pfn < v.freePfn then v.(freePfn := pfn) else v
    case Contends => v.(contended := true)
  }

  function ScanAll(v: Scanner, steps: seq<Scan>): Scanner {
    if steps == [] then v else ScanOne(ScanAll(v, steps[..|steps| - 1]), steps[|steps| - 1])
  }

  function ScanAt(scans: seq<seq<Scan>>, k: nat): seq<Scan> { if k < |scans| then scans[k] else [] }

  /** The scanner after `k` scans. */
  function After(v: Scanner, scans: seq<seq<Scan>>, k: nat): Scanner {
    if k == 0 then v else ScanAll(After(v, scans, k - 1), ScanAt(scans, k - 1))
  }

  /** A block of at least the order is isolated. */
  predicate HasTarget(v: Scanner, order: nat) { exists o :: order <= o < |v.lists| && v.lists[o] != [] }

  /** Only single pages were asked for, the zone lock is contended, the scanners have met or too much is isolated. */
  predicate Pointless(s: Scanner, order: nat, migratePfn: nat) {
    order == 0 || s.contended || s.freePfn / PAGEBLOCK <= migratePfn / PAGEBLOCK || s.nrFree >= COMPACT_FREE_LIMIT
  }

  predicate Nowhere(was: Scanner, now: Scanner) { now.freePfn == was.freePfn && now.nrFree == was.nrFree }

  /** Why no further scan is made after `k` of them: there is a target; or, after at least one, it is pointless to go
      on; or the last one, not being the first, got nowhere. */
  ghost predicate Stops(v: Scanner, scans: seq<seq<Scan>>, k: nat, order: nat, migratePfn: nat) {
    || HasTarget(After(v, scans, k), order)
    || (k >= 1 && Pointless(After(v, scans, k), order, migratePfn))
    || (k >= 2 && Nowhere(After(v, scans, k - 1), After(v, scans, k)))
  }

  /** Each of the first `n` scans was made for want of a reason to stop. */
  ghost predicate Needed(v: Scanner, scans: seq<seq<Scan>>, n: nat, order: nat, migratePfn: nat) {
    forall k: nat :: k < n ==> !Stops(v, scans, k, order, migratePfn)
  }

  lemma NeededOn(v: Scanner, scans: seq<seq<Scan>>, n: nat, order: nat, migratePfn: nat)
    requires Needed(v, scans, n, order, migratePfn) && !Stops(v, scans, n, order, migratePfn)
    ensures Needed(v, scans, n + 1, order, migratePfn)
  {
  }

  /** With no target after the last scan there was at least one, and then either only single pages were asked for, or
      the zone lock was contended, or the scanners had met, or too much was isolated, or the last of several scans had
      isolated nothing and not moved. */
  lemma GivenUp(v: Scanner, scans: seq<seq<Scan>>, n: nat, order: nat, migratePfn: nat)
    requires Stops(v, scans, n, order, migratePfn)
    requires var s := After(v, scans, n); forall o :: order <= o < |s.lists| ==> s.lists[o] == []
    ensures n >= 1
    ensures var s, w := After(v, scans, n), After(v, scans, n - 1);
            || order == 0 || s.contended || s.freePfn / PAGEBLOCK <= migratePfn / PAGEBLOCK
            || s.nrFree >= COMPACT_FREE_LIMIT
            || (n >= 2 && s.freePfn == w.freePfn && s.nrFree == w.nrFree)
  {
  }

  /** Before every scan there was no target; and before every one but the first a larger folio waited, the zone lock
      was not contended, the scanners had not met, not too much was isolated, and the scan before the last, if there
      was one, had got somewhere. */
  lemma KeptOn(v: Scanner, scans: seq<seq<Scan>>, n: nat, k: nat, order: nat, migratePfn: nat)
    requires Needed(v, scans, n, order, migratePfn) && k < n
    ensures var s := After(v, scans, k); forall o :: order <= o < |s.lists| ==> s.lists[o] == []
    ensures k >= 1 ==>
              var s := After(v, scans, k);
              && order > 0 && !s.contended && s.freePfn / PAGEBLOCK > migratePfn / PAGEBLOCK
              && s.nrFree < COMPACT_FREE_LIMIT
    ensures k >= 2 ==>
              var s, w := After(v, scans, k), After(v, scans, k - 1); s.freePfn != w.freePfn || s.nrFree != w.nrFree
  {
    assert !Stops(v, scans, k, order, migratePfn);
  }

  /** compact_control, as far as the free scanner goes. */
  class Control {
    var lists: seq<seq<nat>>
    var nrFree: nat
    var nrMigrate: int
    var freePfn: nat
    var migratePfn: nat
    var contended: bool

    /** The count of isolated pages is what is on the lists. */
    predicate Valid()
      reads this
    {
      |lists| == NR_PAGE_ORDERS && nrFree == Pages(lists)
    }

    function Now(): Scanner
      reads `lists, `nrFree, `freePfn, `contended
    {
      Scanner(lists, nrFree, freePfn, contended)
    }

    /** compact_has_free_order. */
    method HasFreeOrder(order: nat) returns (has: bool)
      requires Valid()
      ensures has <==> exists o :: order <= o < NR_PAGE_ORDERS && lists[o] != []
    {
      var o := order;
      while o < NR_PAGE_ORDERS
        invariant order <= o
        invariant forall k :: order <= k < o && k < NR_PAGE_ORDERS ==> lists[k] == []
        decreases NR_PAGE_ORDERS - o
      {
        if lists[o] != [] {
          return true;
        }
        o := o + 1;
      }
      return false;
    }

    ghost predicate Has(order: nat)
      requires Valid()
      reads this
    {
      exists o :: order <= o < NR_PAGE_ORDERS && lists[o] != []
    }

    /** What the scanner waits for: the migration list is covered, and a page of the order is there or the limit
        reached. */
    ghost predicate Enough(order: nat)
      requires Valid()
      reads this
    {
      nrFree >= nrMigrate && (Has(order) || nrFree >= COMPACT_FREE_LIMIT)
    }

    /** compact_free_enough. */
    method FreeEnough(order: nat) returns (enough: bool)
      requires Valid()
      ensures enough <==> Enough(order)
    {
      if nrFree < nrMigrate {
        return false;
      }
      var has := HasFreeOrder(order);
      return has || nrFree >= COMPACT_FREE_LIMIT;
    }

    /** __isolate_free_page and what follows it: the block goes on the list of its order. */
    method Isolate(pfn: nat, order: nat)
      requires Valid() && order < NR_PAGE_ORDERS
      modifies `lists, `nrFree
      ensures Valid() && lists == old(lists)[order := old(lists)[order] + [pfn]] && nrFree == old(nrFree) + Pow2(order)
    {
      PagesAppend(lists, order, pfn);
      nrFree := nrFree + Pow2(order);
      lists := lists[order := lists[order] + [pfn]];
    }

    /** One round of the loop in isolate_freepages_block, at frame `b`: where the scan goes on, or that it is cut short,
        and whether the block there was isolated. `busy` and `fails` say where the zone lock turns out to be contended
        and where taking a block off the free lists fails. */
    method Sample(look: nat -> Seen, busy: nat -> bool, fails: nat -> bool, b: nat, end: nat, stride: nat,
                  strict: bool, minOrder: nat)
      returns (b': nat, cut: bool, took: bool)
      requires Valid() && stride >= 1 && b < end && b % stride == 0
      requires look(b).Buddy? ==> look(b).order < NR_PAGE_ORDERS
      modifies `lists, `nrFree
      ensures Valid() && lists == Listed(look, old(lists), if took then [b] else [])
      ensures nrFree == old(nrFree) + (if took then Reach(look(b)) else 0)
      ensures Moves(look, busy, fails, b, end, stride, strict, b', cut, took)
      ensures cut && took ==> Enough(minOrder)
      ensures !strict && !old(Enough(minOrder)) ==> Short(nrFree) && (!cut ==> !Enough(minOrder))
    {
      b', cut, took := b, false, false;
      ghost var needy := !strict && !Enough(minOrder);
      if needy { NotEnoughIsShort(minOrder); }
      if busy(b) {
        return b, true, false;
      }
      FurtherOn(look, b, end, stride);
      var seen := look(b);
      if seen.Buddy? {
        if fails(b) {
          return b, true, false;
        }
        if needy { NotEnoughGrows(minOrder, seen.order); }
        ListedOne(look, lists, b);
        Isolate(b, seen.order);
        took := true;
        var enough := FreeEnough(minOrder);
        if !strict && enough {
          return b + Pow2(seen.order), true, true;
        }
        if needy { NotEnoughIsShort(minOrder); }
        b' := AlignUp(b + Pow2(seen.order), stride) - stride;
      } else {
        if seen.Compound? && seen.order <= MAX_PAGE_ORDER && b + Pow2(seen.order) <= end {
          b' := AlignUp(b + Pow2(seen.order), stride) - stride;
        }
        if strict {
          return b', true, false;
        }
      }
      b' := b' + stride;
    }

    /** A round, and what is known of the scan after it: `was` and `wasFree` are the lists and the count it began
        with. */
    method Round(look: nat -> Seen, busy: nat -> bool, fails: nat -> bool, start: nat, b: nat, end: nat, stride: nat,
                 strict: bool, minOrder: nat, total: nat, ghost took: seq<nat>, ghost was: seq<seq<nat>>,
                 ghost wasFree: nat)
      returns (b': nat, cut: bool, total': nat, ghost took': seq<nat>)
      requires Valid() && Sound(look) && stride >= 1 && b < end
      requires lists == Listed(look, was, took) && nrFree == wasFree + total && total == FramesOf(look, took)
      requires Scanned(look, busy, fails, start, b, end, stride, strict, took, false)
      modifies `lists, `nrFree
      ensures Valid() && lists == Listed(look, was, took') && nrFree == wasFree + total'
      ensures total' == FramesOf(look, took')
      ensures Scanned(look, busy, fails, start, b', end, stride, strict, took', cut) && (!cut ==> b' > b)
      ensures !strict && cut ==> Enough(minOrder) || (b' < end && Refused(look, busy, fails, b'))
      ensures !strict && !old(Enough(minOrder)) ==> Short(nrFree) && (!cut ==> !Enough(minOrder))
    {
      var isolated;
      b', cut, isolated := Sample(look, busy, fails, b, end, stride, strict, minOrder);
      ScanOn(look, busy, fails, start, b, end, stride, strict, took, b', cut, isolated);
      ListedOn(look, was, took, b);
      total', took' := total, took;
      if isolated {
        total', took' := total + Pow2(look(b).order), took + [b];
      }
    }

    /** isolate_freepages_block. `took` are the heads of the blocks isolated, in order, and `stop` is where the scan
        ended; `early` says that it was cut short. Not strict, every stride-aligned free block before `stop` is
        isolated, and the scan is cut short only by enough pages, contention, or a block that could not be taken.
        Strictly, the blocks follow one another without a gap, up to the end or to a frame that cannot be had. */
    method IsolateBlock(look: nat -> Seen, busy: nat -> bool, fails: nat -> bool, start: nat, end: nat,
                        stride0: nat, strict: bool, minOrder: nat)
      returns (total: nat, next: nat, early: bool, ghost took: seq<nat>, ghost stop: nat)
      requires Valid() && start < end && Sound(look) && (strict || (stride0 >= 1 && start % stride0 == 0))
      modifies `lists, `nrFree
      ensures Valid() && start <= stop && next == Min(stop, end) && (!early ==> stop >= end)
      ensures lists == Listed(look, old(lists), took) && nrFree == old(nrFree) + FramesOf(look, took)
      ensures total == if strict && stop < end then 0 else FramesOf(look, took)
      ensures Taken(look, took, start, stop)
      ensures !strict ==> HeadsTaken(look, start, stop, end, stride0, took)
      ensures !strict && early ==> Enough(minOrder) || (stop < end && Refused(look, busy, fails, stop))
      ensures !strict && !old(Enough(minOrder)) ==> Short(nrFree)
      ensures strict ==> Tiled(look, start, took)
      ensures strict && !early ==> EndOf(look, start, took) >= end
      ensures strict && early ==> stop < end && total == 0 && NotHad(look, busy, fails, EndOf(look, start, took))
    {
      var stride := if strict then 1 else stride0;
      var b: nat := start;
      total, early, took := 0, false, [];
      ghost var needy := !strict && !Enough(minOrder);
      if needy { NotEnoughIsShort(minOrder); }
      while b < end && !early
        invariant Valid() && lists == Listed(look, old(lists), took)
        invariant nrFree == old(nrFree) + total && total == FramesOf(look, took)
        invariant Scanned(look, busy, fails, start, b, end, stride, strict, took, early)
        invariant !strict && early ==> Enough(minOrder) || (b < end && Refused(look, busy, fails, b))
        invariant needy ==> Short(nrFree) && (!early ==> !Enough(minOrder))
        decreases !early, end - b
      {
        b, early, total, took := Round(look, busy, fails, start, b, end, stride, strict, minOrder, total, took,
                                       old(lists), old(nrFree));
      }
      next, stop := Min(b, end), b;
      if strict && b < end {
        total := 0;
      }
    }

    /** isolate_freepages over the whole zone, as far as its caller can tell: pages are only added, the scanner only
        moves down, and the zone lock may turn out to be contended. */
    method IsolateFreepages(steps: seq<Scan>)
      requires Valid()
      modifies `lists, `nrFree, `freePfn, `contended
      ensures Now() == ScanAll(old(Now()), steps)
      ensures Valid() && nrFree >= old(nrFree) && freePfn <= old(freePfn)
      ensures Grown(old(lists), lists) && (nrFree == old(nrFree) ==> lists == old(lists))
    {
      for k := 0 to |steps|
        invariant Valid() && nrFree >= old(nrFree) && freePfn <= old(freePfn)
        invariant Grown(old(lists), lists) && (nrFree == old(nrFree) ==> lists == old(lists))
        invariant Now() == ScanAll(old(Now()), steps[..k])
      {
        assert steps[..k + 1][..k] == steps[..k];
        match steps[k]
        case Adds(pfn, order) =>
          if order < NR_PAGE_ORDERS {
            Isolate(pfn, order);
          }
        case MovesDown(pfn) =>
          if pfn < freePfn {
            freePfn := pfn;
          }
        case Contends => contended := true;
      }
      assert steps[..|steps|] == steps;
    }

    /** The first non-empty list of at least the order; NR_PAGE_ORDERS if there is none. */
    method StartOrder(order: nat) returns (o: nat)
      requires Valid() && order <= NR_PAGE_ORDERS
      ensures order <= o <= NR_PAGE_ORDERS && (forall k :: order <= k < o ==> lists[k] == [])
      ensures o < NR_PAGE_ORDERS ==> lists[o] != []
    {
      o := order;
      while o < NR_PAGE_ORDERS && lists[o] == []
        invariant order <= o <= NR_PAGE_ORDERS && forall k :: order <= k < o ==> lists[k] == []
      {
        o := o + 1;
      }
    }

    /** What FindTarget knows before its scan number `done + 1`, having started at `v`. */
    ghost predicate Going(v: Scanner, scans: seq<seq<Scan>>, done: nat, order: nat)
      reads this
    {
      && Valid() && Now() == After(v, scans, done) && Needed(v, scans, done, order, migratePfn)
      && (done >= 2 ==> !Nowhere(After(v, scans, done - 1), After(v, scans, done)))
    }

    /** One more scan where there is no target: `stuck` says that it got nowhere, and was not the first. */
    method Again(order: nat, hasIsolated: bool, scan: seq<Scan>, ghost v: Scanner, ghost scans: seq<seq<Scan>>,
                 ghost done: nat)
      returns (stuck: bool)
      requires Going(v, scans, done, order) && !HasTarget(Now(), order) && scan == ScanAt(scans, done)
      requires hasIsolated <==> done >= 1
      requires hasIsolated ==> !Pointless(Now(), order, migratePfn)
      modifies `lists, `nrFree, `freePfn, `contended
      ensures Valid() && nrFree >= old(nrFree) && freePfn <= old(freePfn) && Grown(old(lists), lists)
      ensures stuck <==> hasIsolated && freePfn == old(freePfn) && nrFree == old(nrFree)
      ensures stuck ==> lists == old(lists)
      ensures Now() == After(v, scans, done + 1) && Needed(v, scans, done + 1, order, migratePfn)
      ensures if stuck then Stops(v, scans, done + 1, order, migratePfn) else Going(v, scans, done + 1, order)
    {
      var pfn, free := freePfn, nrFree;
      NeededOn(v, scans, done, order, migratePfn);
      IsolateFreepages(scan);
      return hasIsolated && freePfn == pfn && nrFree == free;
    }

    /** The retry part of compaction_alloc: it ends for every order, with a list to take a target from or with none of
        that order, after just the scans `n` there is a reason to make. */
    method FindTarget(order: nat, scans: seq<seq<Scan>>) returns (o: nat, ghost n: nat)
      requires Valid() && order < NR_PAGE_ORDERS
      modifies `lists, `nrFree, `freePfn, `contended
      ensures Now() == After(old(Now()), scans, n)
      ensures Stops(old(Now()), scans, n, order, migratePfn) && Needed(old(Now()), scans, n, order, migratePfn)
      ensures Valid() && nrFree >= old(nrFree) && freePfn <= old(freePfn) && Grown(old(lists), lists)
      ensures order <= o <= NR_PAGE_ORDERS && (forall k :: order <= k < o ==> lists[k] == [])
      ensures o < NR_PAGE_ORDERS ==> lists[o] != []
    {
      var hasIsolated, done: nat := false, 0;
      ghost var v := Now();
      while true
        invariant Going(v, scans, done, order) && (hasIsolated <==> done >= 1)
        invariant nrFree >= old(nrFree) && freePfn <= old(freePfn) && Grown(old(lists), lists)
        decreases !hasIsolated, COMPACT_FREE_LIMIT - Min(nrFree, COMPACT_FREE_LIMIT), freePfn
      {
        o := StartOrder(order);
        n := done;
        if o < NR_PAGE_ORDERS {
          return;
        }
        if hasIsolated &&
           (order == 0 || contended || freePfn / PAGEBLOCK <= migratePfn / PAGEBLOCK || nrFree >= COMPACT_FREE_LIMIT) {
          return;
        }
        var stuck := Again(order, hasIsolated, ScanAt(scans, done), v, scans, done);
        done := done + 1;
        if stuck {
          n := done;
          return;
        }
        hasIsolated := true;
      }
    }

    /** compaction_alloc, `from` being what is isolated once the scanner is done: the first block of the smallest order
        there is, cut down to the order asked for. The frames isolated before are those of that block and those
        still isolated, and their number is right. */
    method CompactionAlloc(order: nat, scans: seq<seq<Scan>>)
      returns (ok: bool, pfn: nat, ghost from: seq<seq<nat>>, ghost o: nat, ghost n: nat)
      requires Valid() && order < NR_PAGE_ORDERS
      modifies `lists, `nrFree, `nrMigrate, `freePfn, `contended
      ensures from == After(old(Now()), scans, n).lists && Stops(old(Now()), scans, n, order, migratePfn)
      ensures Needed(old(Now()), scans, n, order, migratePfn)
      ensures ok <==> HasTarget(After(old(Now()), scans, n), order)
      ensures Valid() && freePfn <= old(freePfn) && Grown(old(lists), from) && order <= o <= NR_PAGE_ORDERS
      ensures forall k :: order <= k < o ==> from[k] == []
      ensures ok <==> o < NR_PAGE_ORDERS
      ensures ok ==> from[o] != [] && pfn == from[o][0] && HoldsMore(lists, from, pfn, pfn + Pow2(order))
      ensures ok ==> nrMigrate == old(nrMigrate) - Pow2(order) && nrFree + Pow2(order) == Pages(from) >= old(nrFree)
      ensures !ok ==> lists == from && nrMigrate == old(nrMigrate) && nrFree >= old(nrFree)
    {
      var startOrder;
      startOrder, n := FindTarget(order, scans);
      from, o := lists, startOrder;
      if startOrder == NR_PAGE_ORDERS {
        return false, 0, from, o, n;
      }
      pfn := lists[startOrder][0];
      PagesTake(lists, startOrder);
      FirstTaken(lists, startOrder);
      lists := lists[startOrder := lists[startOrder][1..]];
      SplitDown(pfn, startOrder, order);
      Pow2Grows(order, startOrder);
      assert HoldsMore(lists, from, pfn, pfn + Pow2(order));
      nrFree := nrFree - Pow2(order);
      nrMigrate := nrMigrate - Pow2(order);
      return true, pfn, from, o, n;
    }

    /** The block of order `from` at `pfn` is halved until its order is `to`; the upper halves go on the lists. */
    method SplitDown(pfn: nat, from: nat, to: nat)
      requires |lists| == NR_PAGE_ORDERS && to <= from < NR_PAGE_ORDERS
      modifies `lists
      ensures |lists| == NR_PAGE_ORDERS && Pages(lists) == old(Pages(lists)) + Pow2(from) - Pow2(to)
      ensures HoldsMore(old(lists), lists, pfn + Pow2(to), pfn + Pow2(from))
    {
      var o := from;
      while o > to
        invariant to <= o <= from && |lists| == NR_PAGE_ORDERS &&
                  Pages(lists) + Pow2(o) == old(Pages(lists)) + Pow2(from)
        invariant Pow2(o) <= Pow2(from) && HoldsMore(old(lists), lists, pfn + Pow2(o), pfn + Pow2(from))
      {
        o := o - 1;
        PagesAdd(lists, o, pfn + Pow2(o));
        FirstHolds(lists, o, pfn + Pow2(o));
        lists := lists[o := [pfn + Pow2(o)] + lists[o]];
      }
    }

    /** Fewer pages than the larger of the limit and the migration list, plus one block of the largest order. */
    predicate Short(n: nat)
      reads `nrMigrate
    {
      n < Max(COMPACT_FREE_LIMIT, nrMigrate) + Pow2(NR_PAGE_ORDERS - 1)
    }

    lemma NotEnoughIsShort(order: nat)
      requires Valid() && !Enough(order)
      ensures nrFree < Max(COMPACT_FREE_LIMIT, nrMigrate) && Short(nrFree)
    {
    }

    lemma NotEnoughGrows(order: nat, o: nat)
      requires Valid() && !Enough(order) && o < NR_PAGE_ORDERS
      ensures Short(nrFree + Pow2(o))
    {
      NotEnoughIsShort(order);
      Pow2Grows(o, NR_PAGE_ORDERS - 1);
    }
  }

  /** Every stride-aligned free block that starts in the range before `b` is among the ones taken. */
  ghost predicate HeadsTaken(look: nat -> Seen, start: nat, b: nat, end: nat, stride: nat, took: seq<nat>)
    requires stride >= 1
  {
    forall h: nat :: start <= h < b && h < end && look(h).Buddy? && h % stride == 0 ==> h in took
  }

  /** The zone lock is contended at this frame, or the free block there cannot be taken. */
  predicate Refused(look: nat -> Seen, busy: nat -> bool, fails: nat -> bool, b: nat) {
    busy(b) || (look(b).Buddy? && fails(b))
  }

  /** What ends a strict scan: there is no free block here, or it cannot be taken. */
  predicate NotHad(look: nat -> Seen, busy: nat -> bool, fails: nat -> bool, b: nat) {
    !look(b).Buddy? || Refused(look, busy, fails, b)
  }

  /** Where the scan goes on from a sample, unless it is cut short. */
  function Further(look: nat -> Seen, b: nat, end: nat, stride: nat): nat
    requires stride >= 1
  {
    if look(b).Buddy? || (look(b).Compound? && b + Reach(look(b)) <= end) then AlignUp(b + Reach(look(b)), stride)
    else b + stride
  }

  /** It is aligned, and further on than the sample. */
  lemma FurtherOn(look: nat -> Seen, b: nat, end: nat, stride: nat)
    requires stride >= 1 && b % stride == 0 && b < end
    ensures Further(look, b, end, stride) % stride == 0 && Further(look, b, end, stride) >= b + stride
    ensures stride == 1 && !look(b).Buddy? ==> Further(look, b, end, stride) <= end
    ensures stride == 1 && look(b).Buddy? ==> Further(look, b, end, stride) == b + Reach(look(b))
  {
    AddMod(b, stride);
    var far := AlignUp(b + Reach(look(b)), stride);
    if far < b + stride { MultiplesOrdered(far, b, stride); }
  }

  /** How one round may leave frame `b` for `b'`: further on, or cut short, with the block there isolated or not. */
  predicate Moves(look: nat -> Seen, busy: nat -> bool, fails: nat -> bool, b: nat, end: nat, stride: nat,
                  strict: bool, b': nat, cut: bool, took: bool)
    requires stride >= 1
  {
    && (took ==> look(b).Buddy? && !Refused(look, busy, fails, b))
    && (!cut ==> b' == Further(look, b, end, stride) && (look(b).Buddy? ==> took) && (strict ==> took))
    && (cut && took ==> !strict && b' == b + Reach(look(b)))
    && (cut && !took ==>
          if Refused(look, busy, fails, b) then b' == b
          else strict && !look(b).Buddy? && (b' == b || b' + stride == Further(look, b, end, stride)))
  }

  /** Between a sample and the next one no free block starts at an aligned frame. */
  lemma NextSample(look: nat -> Seen, b: nat, end: nat, stride: nat, h: nat)
    requires Sound(look) && stride >= 1 && b < end && b % stride == 0
    requires b < h && look(h).Buddy? && h % stride == 0
    ensures h >= Further(look, b, end, stride) && h >= b + Reach(look(b))
  {
    AlignedBefore(b + Reach(look(b)), stride, h);
    StepBefore(b, stride, h);
  }

  lemma AlignedBefore(x: nat, stride: nat, h: nat)
    requires stride >= 1 && x <= h && h % stride == 0
    ensures AlignUp(x, stride) <= h
  {
    MultiplesOrdered(AlignUp(x, stride), h, stride);
  }

  lemma StepBefore(b: nat, stride: nat, h: nat)
    requires stride >= 1 && b < h && b % stride == 0 && h % stride == 0
    ensures b + stride <= h
  {
    AddMod(b, stride);
    MultiplesOrdered(b + stride, h, stride);
  }

  /** The blocks taken are free blocks of the range, in order and without overlap, and end before `b`. */
  ghost predicate Taken(look: nat -> Seen, took: seq<nat>, start: nat, b: nat) {
    && (forall i :: 0 <= i < |took| ==> start <= took[i] && look(took[i]).Buddy? && took[i] + Reach(look(took[i])) <= b)
    && forall i, j :: 0 <= i < j < |took| ==> took[i] + Reach(look(took[i])) <= took[j]
  }

  lemma TakenOn(look: nat -> Seen, took: seq<nat>, start: nat, b: nat, b': nat)
    requires Taken(look, took, start, b) && start <= b
    ensures b <= b' ==> Taken(look, took, start, b')
    ensures look(b).Buddy? && b + Reach(look(b)) <= b' ==> Taken(look, took + [b], start, b')
  {
  }

  lemma HeadsOn(look: nat -> Seen, start: nat, b: nat, end: nat, stride: nat, took: seq<nat>, b': nat)
    requires Sound(look) && stride >= 1 && start <= b < end && b % stride == 0
    requires HeadsTaken(look, start, b, end, stride, took)
    requires b' <= Further(look, b, end, stride) || b' <= b + Reach(look(b))
    ensures HeadsTaken(look, start, b', end, stride, took + [b])
    ensures !look(b).Buddy? ==> HeadsTaken(look, start, b', end, stride, took)
  {
    forall h: nat | start <= h < b' && h < end && look(h).Buddy? && h % stride == 0
      ensures h in took + [b] && (!look(b).Buddy? ==> h in took)
    {
      if h > b { NextSample(look, b, end, stride, h); } else if h < b { assert h in took; }
    }
  }

  lemma ReachedBy(look: nat -> Seen, b: nat, end: nat, stride: nat)
    requires stride >= 1 && look(b).Buddy?
    ensures Further(look, b, end, stride) >= b + Reach(look(b))
  {
  }

  /** Where the blocks taken end, if they follow one another from `start`. */
  ghost function EndOf(look: nat -> Seen, start: nat, took: seq<nat>): nat {
    if took == [] then start else took[|took| - 1] + Reach(look(took[|took| - 1]))
  }

  /** The blocks taken follow one another from `start` without a gap. */
  ghost predicate Tiled(look: nat -> Seen, start: nat, took: seq<nat>) {
    forall i :: 0 <= i < |took| ==> look(took[i]).Buddy? && took[i] == EndOf(look, start, took[..i])
  }

  lemma TiledOn(look: nat -> Seen, start: nat, took: seq<nat>, b: nat)
    requires Tiled(look, start, took) && b == EndOf(look, start, took) && look(b).Buddy?
    ensures Tiled(look, start, took + [b]) && EndOf(look, start, took + [b]) == b + Reach(look(b))
  {
    var more := took + [b];
    forall i | 0 <= i < |more| ensures look(more[i]).Buddy? && more[i] == EndOf(look, start, more[..i]) {
      if i < |took| { assert more[..i] == took[..i]; } else { assert more[..i] == took; }
    }
  }

  /** A strict scan at frame `b`: it has come there from block to block, or ended where no block could be had. */
  ghost predicate StrictSoFar(look: nat -> Seen, busy: nat -> bool, fails: nat -> bool, start: nat, b: nat,
                              end: nat, took: seq<nat>, early: bool)
  {
    && Tiled(look, start, took)
    && (!early ==> EndOf(look, start, took) == b)
    && (early ==> b < end && NotHad(look, busy, fails, EndOf(look, start, took)))
  }

  lemma ScanStrictly(look: nat -> Seen, busy: nat -> bool, fails: nat -> bool, start: nat, b: nat, end: nat,
                     took: seq<nat>, b': nat, cut: bool, isolated: bool)
    requires b < end && StrictSoFar(look, busy, fails, start, b, end, took, false)
    requires Moves(look, busy, fails, b, end, 1, true, b', cut, isolated)
    ensures StrictSoFar(look, busy, fails, start, b', end, if isolated then took + [b] else took, cut)
  {
    FurtherOn(look, b, end, 1);
    if isolated { TiledOn(look, start, took, b); }
  }

  /** What is known of a scan that has come to frame `b`. */
  ghost predicate Scanned(look: nat -> Seen, busy: nat -> bool, fails: nat -> bool, start: nat, b: nat, end: nat,
                          stride: nat, strict: bool, took: seq<nat>, early: bool)
    requires stride >= 1
  {
    && start <= b && (!early ==> b % stride == 0) && Taken(look, took, start, b)
    && (if strict then stride == 1 && StrictSoFar(look, busy, fails, start, b, end, took, early)
        else HeadsTaken(look, start, b, end, stride, took))
  }

  /** One round keeps it. */
  lemma ScanOn(look: nat -> Seen, busy: nat -> bool, fails: nat -> bool, start: nat, b: nat, end: nat, stride: nat,
               strict: bool, took: seq<nat>, b': nat, cut: bool, isolated: bool)
    requires Sound(look) && stride >= 1 && b < end
    requires Scanned(look, busy, fails, start, b, end, stride, strict, took, false)
    requires Moves(look, busy, fails, b, end, stride, strict, b', cut, isolated)
    ensures Scanned(look, busy, fails, start, b', end, stride, strict, if isolated then took + [b] else took, cut)
    ensures !cut ==> b' > b
    ensures !strict && cut && !isolated ==> b' == b && Refused(look, busy, fails, b)
  {
    FurtherOn(look, b, end, stride);
    if look(b).Buddy? { ReachedBy(look, b, end, stride); }
    TakenOn(look, took, start, b, b');
    if strict {
      ScanStrictly(look, busy, fails, start, b, end, took, b', cut, isolated);
    } else if b' > b {
      HeadsOn(look, start, b, end, stride, took, b');
    }
  }

  /** The frames of blocks that follow one another are the frames up to where the last one ends. */
  lemma {:induction false} TiledCovers(look: nat -> Seen, start: nat, took: seq<nat>, x: nat)
    requires Tiled(look, start, took) && start <= x < EndOf(look, start, took)
    ensures exists i :: 0 <= i < |took| && took[i] <= x < took[i] + Reach(look(took[i]))
    decreases |took|
  {
    var n := |took| - 1;
    if x < took[n] {
      forall i | 0 <= i < n ensures look(took[..n][i]).Buddy? && took[..n][i] == EndOf(look, start, took[..n][..i]) {
        assert took[..n][..i] == took[..i];
      }
      TiledCovers(look, start, took[..n], x);
      var i :| 0 <= i < n && took[..n][i] <= x < took[..n][i] + Reach(look(took[..n][i]));
      assert took[i] <= x < took[i] + Reach(look(took[i]));
    }
  }

  /** How many frames the blocks taken have. */
  ghost function FramesOf(look: nat -> Seen, took: seq<nat>): nat {
    if took == [] then 0 else FramesOf(look, took[..|took| - 1]) + Reach(look(took[|took| - 1]))
  }

  /** The lists with the blocks taken at the end of the lists of their orders. */
  ghost function Listed(look: nat -> Seen, lists: seq<seq<nat>>, took: seq<nat>): (r: seq<seq<nat>>)
    ensures |r| == |lists|
  {
    if took == [] then lists
    else
      var h := took[|took| - 1];
      var r := Listed(look, lists, took[..|took| - 1]);
      if look(h).Buddy? && look(h).order < |r| then r[look(h).order := r[look(h).order] + [h]] else r
  }

  lemma ListedOne(look: nat -> Seen, lists: seq<seq<nat>>, b: nat)
    requires look(b).Buddy? && look(b).order < |lists|
    ensures Listed(look, lists, [b]) == lists[look(b).order := lists[look(b).order] + [b]]
  {
    assert [b][..0] == [];
  }

  lemma ListedOn(look: nat -> Seen, lists: seq<seq<nat>>, took: seq<nat>, b: nat)
    ensures Listed(look, Listed(look, lists, took), [b]) == Listed(look, lists, took + [b])
    ensures FramesOf(look, took + [b]) == FramesOf(look, took) + Reach(look(b))
  {
    assert (took + [b])[..|took|] == took && [b][..0] == [];
  }

  /** With a power-of-two stride every free block at least as large starts at a multiple of it: a scan that was not cut
      short has isolated each of them, whatever else there is around it. */
  lemma LargeBlocksTaken(look: nat -> Seen, start: nat, stop: nat, end: nat, k: nat, took: seq<nat>, h: nat)
    requires Sound(look) && HeadsTaken(look, start, stop, end, Pow2(k), took) && stop >= end
    requires start <= h < end && look(h).Buddy? && Pow2(look(h).order) >= Pow2(k)
    ensures h in took
  {
    if look(h).order < k { Pow2Grows(look(h).order + 1, k); }
    CoarserAligned(h, look(h).order, k);
  }

  lemma {:induction false} CoarserAligned(h: nat, o: nat, k: nat)
    requires k <= o && h % Pow2(o) == 0
    ensures h % Pow2(k) == 0
  {
    if k < o {
      var q := h / Pow2(o);
      assert h == 2 * q * Pow2(o - 1);
      MulMod(2 * q, Pow2(o - 1));
      CoarserAligned(h, o - 1, k);
    }
  }
}
