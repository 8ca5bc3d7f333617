module HeaderMove {
  /**
   Moving an ARC header: arc_hdr_move as it stands after arc-hdr-mobility, arc-move-counters, mobile-cache-rcu
   and arc-folio-lru, and the bridge that constructs and destructs around it (slab-mobility).

   A lock another task holds makes a try fail; what another task may have changed between reading the header
   and locking its hash chain is the nondeterministic `raced`.
   */

  import opened Basics

  type Buf = nat

  /** The contents of a header, what memcpy carries over; `dva` zero is a header without identity. */
  datatype Contents = Contents(
    dva: nat, hashed: bool, l1: bool, l2: bool, io: bool, l2writing: bool, acb: bool, refs: nat, state: nat,
    linked: bool, pabd: Option<Buf>, rabd: Option<Buf>, rest: nat)

  class Header {
    var c: Contents
  }

  /** Why headers were not moved, and how many were. */
  datatype Counters = Counters(
    relocated: nat, notLive: nat, raced: nat, lockMiss: nat, deferred: nat,
    held: nat, io: nat, acb: nat, l2write: nat, l2hdr: nat, nol1: nat)

  datatype Answer = Yes | Later | DontKnow

  const ANON: nat := 0

  predicate OnlyAt(items: seq<Header>, h: Header, i: nat) {
    i < |items| && items[i] == h && h !in items[..i] && h !in items[i + 1..]
  }

  ghost predicate Once(items: seq<Header>, h: Header) { exists i :: OnlyAt(items, h, i) }

  /** The list with one member replaced where it stands. */
  function Replaced(items: seq<Header>, h: Header, nh: Header): (r: seq<Header>)
    ensures |r| == |items|
  {
    if items == [] then [] else [if items[0] == h then nh else items[0]] + Replaced(items[1..], h, nh)
  }

  lemma {:induction false} ReplacedAt(items: seq<Header>, h: Header, nh: Header, k: nat)
    requires k < |items|
    ensures Replaced(items, h, nh)[k] == if items[k] == h then nh else items[k]
  {
    if k > 0 { ReplacedAt(items[1..], h, nh, k - 1); }
  }

  /** insert_after and then remove: the new header ends up exactly where the old one was. */
  lemma InsertThenRemove(items: seq<Header>, h: Header, i: nat, nh: Header)
    requires OnlyAt(items, h, i)
    ensures items[..i] + [nh] + items[i + 1..] == Replaced(items, h, nh)
  {
    var r := items[..i] + [nh] + items[i + 1..];
    forall k | 0 <= k < |items| ensures r[k] == Replaced(items, h, nh)[k] {
      ReplacedAt(items, h, nh, k);
      if k < i { assert items[k] in items[..i]; } else if k > i { assert items[k] == items[i + 1..][k - i - 1]; }
    }
  }

  lemma OnceReplaced(items: seq<Header>, h: Header, nh: Header, g: Header)
    requires Once(items, g) && nh !in items
    ensures Once(Replaced(items, h, nh), if g == h then nh else g)
  {
    var i: nat :| OnlyAt(items, g, i);
    var r, g' := Replaced(items, h, nh), if g == h then nh else g;
    ReplacedAt(items, h, nh, i);
    forall k | 0 <= k < |items| && k != i ensures r[k] != g' {
      ReplacedAt(items, h, nh, k);
      assert items[k] in items;
      if k < i { assert items[k] in items[..i]; } else { assert items[k] == items[i + 1..][k - i - 1]; }
    }
    assert OnlyAt(r, g', i);
  }

  function ItemsOf(lists: map<nat, seq<Header>>, l: nat): seq<Header> { if l in lists then lists[l] else [] }

  /** A linked header stands once on its sublist and on no other; one that is not linked stands on none. */
  ghost predicate Stands(lists: map<nat, seq<Header>>, h: Header, linked: bool, l: nat) {
    && (linked ==> Once(ItemsOf(lists, l), h))
    && forall k :: h in ItemsOf(lists, k) ==> linked && k == l
  }

  /** `now` is `was` with `h` replaced by `nh` on sublist `l`, if it was linked there. */
  ghost predicate Swapped(was: map<nat, seq<Header>>, now: map<nat, seq<Header>>, linked: bool, l: nat, h: Header,
      nh: Header) {
    forall k :: ItemsOf(now, k) == if linked && k == l then Replaced(ItemsOf(was, k), h, nh) else ItemsOf(was, k)
  }

  lemma NewStands(was: map<nat, seq<Header>>, now: map<nat, seq<Header>>, linked: bool, l: nat, h: Header, nh: Header)
    requires Swapped(was, now, linked, l, h, nh) && Stands(was, h, linked, l) && h != nh
    requires forall k :: nh !in ItemsOf(was, k)
    ensures Stands(now, nh, linked, l) && forall k :: h !in ItemsOf(now, k)
  {
    if linked {
      OnceReplaced(ItemsOf(was, l), h, nh, h);
      forall k | 0 <= k < |ItemsOf(was, l)| ensures ItemsOf(now, l)[k] != h { ReplacedAt(ItemsOf(was, l), h, nh, k); }
    }
  }

  lemma OtherStands(was: map<nat, seq<Header>>, now: map<nat, seq<Header>>, linked: bool, l: nat, h: Header, nh: Header,
                    g: Header, gLinked: bool, gl: nat)
    requires Swapped(was, now, linked, l, h, nh) && Stands(was, g, gLinked, gl) && g != h && g != nh
    requires forall k :: nh !in ItemsOf(was, k)
    ensures Stands(now, g, gLinked, gl)
  {
    var items := ItemsOf(was, l);
    forall k | 0 <= k < |items| ensures Replaced(items, h, nh)[k] == g ==> g in items { ReplacedAt(items, h, nh, k); }
    if gLinked && linked && l == gl { OnceReplaced(items, h, nh, g); }
  }

  /** A buffer in the page cache calls back the header that holds it. */
  predicate BoundTo(lru: set<Buf>, args: map<Buf, Header>, b: Option<Buf>, h: Header) {
    b.Some? && b.value in lru ==> b.value in args && args[b.value] == h
  }

  /** A hashed header is the one the table has for its identity, its buffers are bound to it, and it stands on the
      lists as its link says. */
  ghost predicate Ok(table: map<nat, Header>, lists: map<nat, seq<Header>>, lru: set<Buf>, args: map<Buf, Header>,
                     h: Header, c: Contents, l: nat) {
    c.hashed ==>
      && c.dva != 0 && c.dva in table && table[c.dva] == h
      && BoundTo(lru, args, c.pabd, h) && BoundTo(lru, args, c.rabd, h)
      && Stands(lists, h, c.linked, l)
  }

  function Rebound(lru: set<Buf>, args: map<Buf, Header>, b: Option<Buf>, h: Header): map<Buf, Header> {
    if b.Some? && b.value in lru then args[b.value := h] else args
  }

  /** The buffers a header owns. */
  function Bufs(c: Contents): set<Buf> {
    (if c.pabd.Some? then {c.pabd.value} else {}) + (if c.rabd.Some? then {c.rabd.value} else {})
  }

  /** The buffer is in the page cache and another task holds its abd_mtx. */
  predicate Busy(lru: set<Buf>, taken: set<Buf>, b: Option<Buf>) { b.Some? && b.value in lru && b.value in taken }

  /** A header that is neither the moved one nor its copy is as consistent after the move as before. */
  lemma OtherOk(table: map<nat, Header>, was: map<nat, seq<Header>>, now: map<nat, seq<Header>>, lru: set<Buf>,
                args: map<Buf, Header>, h: Header, nh: Header, c: Contents, l: nat, g: Header, gc: Contents, gl: nat)
    requires Ok(table, was, lru, args, h, c, l) && Ok(table, was, lru, args, g, gc, gl) && c.hashed
    requires Swapped(was, now, c.linked, l, h, nh) && g != h && g != nh && forall k :: nh !in ItemsOf(was, k)
    ensures Ok(table[c.dva := nh], now, lru, Rebound(lru, Rebound(lru, args, c.pabd, nh), c.rabd, nh), g, gc, gl)
  {
    if gc.hashed { OtherStands(was, now, c.linked, l, h, nh, g, gc.linked, gl); }
  }

  lemma NewOk(table: map<nat, Header>, was: map<nat, seq<Header>>, now: map<nat, seq<Header>>, lru: set<Buf>,
              args: map<Buf, Header>, h: Header, nh: Header, c: Contents, l: nat)
    requires Ok(table, was, lru, args, h, c, l) && c.hashed && h != nh
    requires Swapped(was, now, c.linked, l, h, nh) && forall k :: nh !in ItemsOf(was, k)
    ensures Ok(table[c.dva := nh], now, lru, Rebound(lru, Rebound(lru, args, c.pabd, nh), c.rabd, nh), nh, c, l)
    ensures forall k :: h !in ItemsOf(now, k)
  {
    NewStands(was, now, c.linked, l, h, nh);
  }

  class Arc {
    var table: map<nat, Header>
    var chainLocks: set<nat>
    var lists: map<nat, seq<Header>>
    var listLocks: set<nat>
    var stats: Counters
    var lru: set<Buf>
    var args: map<Buf, Header>
    var taken: set<Buf>
    const buckets: nat
    ghost const headers: set<Header>

    /** HDR_LOCK: the hash chain a header's identity falls on. */
    function Chain(dva: nat): nat { if buckets == 0 then 0 else dva % buckets }

    /** The sublist of its state that an identity falls on. */
    function ListOf(state: nat, dva: nat): nat { if buckets == 0 then state else state * buckets + dva % buckets }

    ghost predicate HeaderOk(h: Header)
      reads `table, `lists, `lru, `args, h
    {
      Ok(table, lists, lru, args, h, h.c, ListOf(h.c.state, h.c.dva))
    }

    ghost predicate Valid()
      reads `table, `lists, `lru, `args, headers
    {
      && (forall d :: d in table ==> table[d] in headers && table[d].c.dva == d && table[d].c.hashed)
      && (forall h :: h in headers ==> HeaderOk(h))
    }

    /** As the constructor leaves a header: no identity, nothing owned, on no list. */
    ghost predicate Blank(h: Header)
      reads `lists, h
    {
      && h.c.dva == 0 && !h.c.hashed && !h.c.linked && h.c.pabd.None? && h.c.rabd.None?
      && forall l :: h !in ItemsOf(lists, l)
    }

    /** The tests that keep a header where it is; every reason is counted, not only the first. */
    method Defers(h: Header) returns (defer: bool)
      modifies `stats
      ensures defer <==> !h.c.l1 || h.c.l2 || h.c.io || h.c.l2writing || h.c.acb || h.c.refs != 0
      ensures stats == Deferred(old(stats), h.c)
    {
      var c := h.c;
      if !c.l1 {
        stats := stats.(nol1 := stats.nol1 + 1);
        stats := stats.(deferred := stats.deferred + 1);
        return true;
      }
      defer := false;
      if c.l2 {
        stats := stats.(l2hdr := stats.l2hdr + 1);
        defer := true;
      }
      if c.io {
        stats := stats.(io := stats.io + 1);
        defer := true;
      }
      if c.l2writing {
        stats := stats.(l2write := stats.l2write + 1);
        defer := true;
      }
      if c.acb {
        stats := stats.(acb := stats.acb + 1);
        defer := true;
      }
      if c.refs != 0 {
        stats := stats.(held := stats.held + 1);
        defer := true;
      }
      if defer {
        stats := stats.(deferred := stats.deferred + 1);
      }
    }

    function Bump(b: bool): nat { if b then 1 else 0 }

    /** Each counter of a reason rises exactly when its reason holds, and `deferred` when any does. */
    function Deferred(s: Counters, c: Contents): Counters {
      if !c.l1 then s.(nol1 := s.nol1 + 1, deferred := s.deferred + 1)
      else
        s.(l2hdr := s.l2hdr + Bump(c.l2), io := s.io + Bump(c.io), l2write := s.l2write + Bump(c.l2writing),
           acb := s.acb + Bump(c.acb), held := s.held + Bump(c.refs != 0),
           deferred := s.deferred + Bump(c.l2 || c.io || c.l2writing || c.acb || c.refs != 0))
    }

    /** abd_lru_rebind. It sleeps, as `waits` tells, while another task holds the buffer's mutex; by the time it goes
        on, that task has let go. */
    method Rebind(b: Option<Buf>, h: Header) returns (waits: bool)
      modifies `args, `taken
      ensures args == Rebound(lru, old(args), b, h)
      ensures waits <==> Busy(lru, old(taken), b)
      ensures taken == if waits then old(taken) - {b.value} else old(taken)
    {
      if b.None? || b.value !in lru {
        return false;
      }
      waits := b.value in taken;
      if waits {
        taken := taken - {b.value};
      }
      args := args[b.value := h];
    }

    /** multilist_sublist_insert_after and multilist_sublist_remove. */
    method SwapInList(l: nat, h: Header, nh: Header)
      requires Once(ItemsOf(lists, l), h)
      modifies `lists
      ensures Swapped(old(lists), lists, true, l, h, nh)
    {
      var items := ItemsOf(lists, l);
      var i: nat :| i < |items| && OnlyAt(items, h, i);
      lists := lists[l := items[..i] + [h, nh] + items[i + 1..]];
      lists := lists[l := lists[l][..i] + lists[l][i + 1..]];
      assert lists[l] == items[..i] + [nh] + items[i + 1..];
      InsertThenRemove(items, h, i, nh);
    }

    /** buf_hash_remove and memcpy. */
    method CopyOut(h: Header, nh: Header)
      requires h != nh
      modifies `table, h, nh
      ensures table == old(table) - {old(h.c.dva)}
      ensures h.c == nh.c == old(h.c).(hashed := false)
    {
      table := table - {h.c.dva};
      h.c := h.c.(hashed := false);
      nh.c := h.c;
    }

    /** The list, buf_hash_insert, and what is reset in the old header. */
    method LinkIn(h: Header, nh: Header)
      requires h != nh && nh.c == h.c && (h.c.linked ==> Once(ItemsOf(lists, ListOf(h.c.state, h.c.dva)), h))
      modifies `table, `lists, h, nh
      ensures table == old(table)[old(h.c.dva) := nh] && nh.c == old(h.c).(hashed := true)
      ensures h.c == old(h.c).(dva := 0, linked := false, pabd := None, acb := false, state := ANON)
      ensures Swapped(old(lists), lists, old(h.c.linked), ListOf(old(h.c.state), old(h.c.dva)), h, nh)
    {
      if h.c.linked {
        SwapInList(ListOf(h.c.state, h.c.dva), h, nh);
        h.c := h.c.(linked := false);
      } else {
        nh.c := nh.c.(linked := false);
      }
      table := table[nh.c.dva := nh];
      nh.c := nh.c.(hashed := true);
      h.c := h.c.(dva := 0);
      h.c := h.c.(pabd := None, acb := false, state := ANON, linked := false);
    }

    /** The move itself, with the hash chain and, for a linked header, its sublist held. What the old header is left
        with is what the code resets; its raw buffer pointer is not among it. */
    method Relocate(h: Header, nh: Header) returns (waits: bool)
      requires h != nh && h.c.hashed && (h.c.linked ==> Once(ItemsOf(lists, ListOf(h.c.state, h.c.dva)), h))
      modifies `table, `lists, `args, `taken, h, nh
      ensures waits <==> Busy(lru, old(taken), old(h.c.pabd)) || Busy(lru, old(taken), old(h.c.rabd))
      ensures Bufs(h.c) == {} <==> old(h.c.rabd).None?
      ensures nh.c == old(h.c)
      ensures h.c == old(h.c).(dva := 0, hashed := false, linked := false, pabd := None, acb := false, state := ANON)
      ensures table == old(table)[old(h.c.dva) := nh]
      ensures Swapped(old(lists), lists, old(h.c.linked), ListOf(old(h.c.state), old(h.c.dva)), h, nh)
      ensures args == Rebound(lru, Rebound(lru, old(args), old(h.c.pabd), nh), old(h.c.rabd), nh)
    {
      ghost var c, before := h.c, table;
      CopyOut(h, nh);
      waits := Rebind(nh.c.pabd, nh);
      var more := Rebind(nh.c.rabd, nh);
      waits := waits || more;
      LinkIn(h, nh);
      assert table == before[c.dva := nh];
    }

    /** What arc_hdr_move answers, and how the counters stand then, for a header with contents `c`: `chain` and `list`
        say whether someone holds the hash chain or the sublist, `raced` whether the header changed in between. */
    function Verdict(c: Contents, chain: bool, raced: bool, list: bool, s: Counters): (Answer, Counters) {
      if c.dva == 0 then (DontKnow, s.(notLive := s.notLive + 1))
      else if chain then (Later, s.(lockMiss := s.lockMiss + 1))
      else if raced || !c.hashed then (DontKnow, s.(raced := s.raced + 1))
      else if !c.l1 || c.l2 || c.io || c.l2writing || c.acb || c.refs != 0 then (Later, Deferred(s, c))
      else if c.linked && list then (Later, s.(lockMiss := s.lockMiss + 1))
      else (Yes, s.(relocated := s.relocated + 1))
    }

    /** The same from the locks other tasks hold. */
    function Told(c: Contents, raced: bool, chains: set<nat>, held: set<nat>, s: Counters): (Answer, Counters) {
      Verdict(c, Chain(c.dva) in chains, raced, ListOf(c.state, c.dva) in held, s)
    }

    predicate Sleeps(c: Contents, raced: bool, chains: set<nat>, held: set<nat>, mutexes: set<Buf>)
      reads `lru
    {
      Waits(c, Chain(c.dva) in chains, raced, ListOf(c.state, c.dva) in held, lru, mutexes)
    }

    /** The table has the new header for the identity, the sublist is the same with the header replaced where it stood,
        the buffers call back the new header, and the old one is without identity, unlinked, and owns what the code
        left in it: the raw buffer, and nothing if there was none. */
    twostate predicate Relocated(h: Header, nh: Header)
      reads `table, `lists, `args, `lru, h, nh
    {
      && h != nh && nh.c == old(h.c) && table == old(table)[old(h.c.dva) := nh]
      && Swapped(old(lists), lists, old(h.c.linked), ListOf(old(h.c.state), old(h.c.dva)), h, nh)
      && BoundTo(lru, args, nh.c.pabd, nh) && BoundTo(lru, args, nh.c.rabd, nh)
      && h.c.dva == 0 && !h.c.hashed && !h.c.linked && (forall l :: h !in ItemsOf(lists, l))
      && h.c.pabd.None? && h.c.rabd == old(h.c.rabd) && (Bufs(h.c) == {} <==> old(h.c.rabd).None?)
    }

    /** The move keeps every header consistent. */
    method Replace(h: Header, nh: Header) returns (waits: bool)
      requires Valid() && h in headers && nh in headers && Blank(nh) && h.c.hashed
      modifies `table, `lists, `args, `taken, h, nh
      ensures waits <==> Busy(lru, old(taken), old(h.c.pabd)) || Busy(lru, old(taken), old(h.c.rabd))
      ensures Valid() && Relocated(h, nh)
    {
      assert HeaderOk(h);
      ghost var c, t, was, a, l := h.c, table, lists, args, ListOf(h.c.state, h.c.dva);
      label Before:
      waits := Relocate(h, nh);
      NewOk(t, was, lists, lru, a, h, nh, c, l);
      forall g | g in headers ensures HeaderOk(g) {
        if g != h && g != nh {
          assert old@Before(HeaderOk(g));
          OtherOk(t, was, lists, lru, a, h, nh, c, l, g, g.c, ListOf(g.c.state, g.c.dva));
        }
      }
    }

    /** The tests of arc_hdr_move; `raced` says whether the header changes hash chains before the lock is taken. Only
        when they all pass is the hash chain still held. */
    method MayMove(h: Header, raced: bool) returns (may: bool, rc: Answer)
      modifies `stats, `chainLocks
      ensures may <==> rc == Yes
      ensures may ==>
                h.c.hashed && Chain(h.c.dva) !in old(chainLocks) && chainLocks == old(chainLocks) + {Chain(h.c.dva)}
      ensures !may ==> chainLocks == old(chainLocks)
      ensures may <==> Passes(h.c, Chain(h.c.dva) in old(chainLocks), raced, ListOf(h.c.state, h.c.dva) in listLocks)
      ensures Told(h.c, raced, old(chainLocks), listLocks, old(stats)) ==
              (rc, if may then stats.(relocated := stats.relocated + 1) else stats)
    {
      if h.c.dva == 0 {
        stats := stats.(notLive := stats.notLive + 1);
        return false, DontKnow;
      }
      var chain := Chain(h.c.dva);
      if chain in chainLocks {
        stats := stats.(lockMiss := stats.lockMiss + 1);
        return false, Later;
      }
      ghost var before := chainLocks;
      chainLocks := chainLocks + {chain};
      if raced || !h.c.hashed {
        stats := stats.(raced := stats.raced + 1);
        chainLocks := chainLocks - {chain};
        assert chainLocks == before;
        return false, DontKnow;
      }
      var defer := Defers(h);
      if defer {
        chainLocks := chainLocks - {chain};
        assert chainLocks == before;
        return false, Later;
      }
      if h.c.linked && ListOf(h.c.state, h.c.dva) in listLocks {
        stats := stats.(lockMiss := stats.lockMiss + 1);
        chainLocks := chainLocks - {chain};
        assert chainLocks == before;
        return false, Later;
      }
      return true, Yes;
    }

    /** Every test passed: the move is made and counted, and the hash chain let go. */
    method Finish(h: Header, nh: Header, ghost before: set<nat>) returns (waits: bool)
      requires Valid() && h in headers && nh in headers && Blank(nh) && h.c.hashed
      requires chainLocks == before + {Chain(h.c.dva)} && Chain(h.c.dva) !in before
      modifies `table, `lists, `args, `taken, `stats, `chainLocks, h, nh
      ensures waits <==> Busy(lru, old(taken), old(h.c.pabd)) || Busy(lru, old(taken), old(h.c.rabd))
      ensures Valid() && Relocated(h, nh)
      ensures chainLocks == before && stats == old(stats).(relocated := old(stats).relocated + 1)
    {
      waits := Replace(h, nh);
      chainLocks := chainLocks - {Chain(nh.c.dva)};
      stats := stats.(relocated := stats.relocated + 1);
    }

    twostate predicate Unmoved(h: Header, nh: Header)
      reads `table, `lists, `args, `taken, h, nh
    {
      table == old(table) && lists == old(lists) && args == old(args) && taken == old(taken) && h.c == old(h.c) &&
        nh.c == old(nh.c)
    }

    /** It has an identity and is hashed, its chain is free and stays its own, nothing and nobody uses it, and its
        sublist is free. */
    predicate Movable(c: Contents, raced: bool, chains: set<nat>, held: set<nat>) {
      && c.dva != 0 && c.hashed && Chain(c.dva) !in chains && !raced
      && c.l1 && !c.l2 && !c.io && !c.l2writing && !c.acb && c.refs == 0
      && (c.linked ==> ListOf(c.state, c.dva) !in held)
    }

    /** arc_hdr_move. On Yes the table maps the identity to the new header, the sublist is the same with the header
        replaced where it stood, the buffers call back the new header and the old one is empty and on no
        list. On any other answer only the counters changed. Locks are as they were. */
    method Move(h: Header, nh: Header, raced: bool) returns (rc: Answer, waits: bool)
      requires Valid() && h in headers && nh in headers && Blank(nh)
      modifies `table, `lists, `args, `taken, `stats, `chainLocks, `listLocks, h, nh
      ensures waits <==> Sleeps(old(h.c), raced, old(chainLocks), old(listLocks), old(taken))
      ensures Valid() && chainLocks == old(chainLocks) && listLocks == old(listLocks)
      ensures (rc, stats) == Told(old(h.c), raced, old(chainLocks), old(listLocks), old(stats))
      ensures rc == Yes <==> Movable(old(h.c), raced, old(chainLocks), old(listLocks))
      ensures rc == DontKnow <==>
                old(h.c.dva) == 0 || (Chain(old(h.c.dva)) !in old(chainLocks) && (raced || !old(h.c.hashed)))
      ensures rc != Yes ==> Unmoved(h, nh)
      ensures rc == Yes ==> Relocated(h, nh)
    {
      var may;
      may, rc := MayMove(h, raced);
      waits := false;
      if !may {
        return;
      }
      waits := Finish(h, nh, old(chainLocks));
    }
  }

  /** The move sleeps, inside the read side its caller is in: it passes every test and finds a page-cache buffer's mutex
      taken. */
  predicate Waits(c: Contents, chain: bool, raced: bool, list: bool, lru: set<Buf>, taken: set<Buf>) {
    Passes(c, chain, raced, list) && (Busy(lru, taken, c.pabd) || Busy(lru, taken, c.rabd))
  }

  /** Every test of arc_hdr_move is passed. */
  predicate Passes(c: Contents, chain: bool, raced: bool, list: bool) {
    && c.dva != 0 && !chain && !raced && c.hashed && c.l1 && !c.l2 && !c.io && !c.l2writing && !c.acb && c.refs == 0
    && !(c.linked && list)
  }

  /** A clean header with a joined buffer whose mutex reclaim has just taken: the move sleeps. */
  lemma QuietHeaderWaits()
    ensures Waits(Contents(1, true, true, false, false, false, false, 0, 1, true, Some(7), None, 0),
                  false, false, false, {7}, {7})
  {
  }

  /** A header none of whose buffers is in the page cache never makes it sleep, whatever is taken. */
  lemma NoBufferNoWait(c: Contents, chain: bool, raced: bool, list: bool, lru: set<Buf>, taken: set<Buf>)
    requires Bufs(c) !! lru
    ensures !Waits(c, chain, raced, list, lru, taken)
  {
    assert c.pabd.Some? ==> c.pabd.value in Bufs(c);
    assert c.rabd.Some? ==> c.rabd.value in Bufs(c);
  }

  /** What each counter tells: the kind of refusal, and of a deferral every reason there is. */
  lemma CountersTell(a: Arc, c: Contents, chain: bool, raced: bool, list: bool, s: Counters)
    ensures var (rc, t) := a.Verdict(c, chain, raced, list, s);
            var locked := c.dva != 0 && !chain;
            var found := locked && !raced && c.hashed;
            var clear := c.l1 && !c.l2 && !c.io && !c.l2writing && !c.acb && c.refs == 0;
            && t.notLive - s.notLive == (if c.dva == 0 then 1 else 0)
            && t.raced - s.raced == (if locked && (raced || !c.hashed) then 1 else 0)
            && t.deferred - s.deferred == (if found && !clear then 1 else 0)
            && t.lockMiss - s.lockMiss ==
                 (if (c.dva != 0 && chain) || (found && clear && c.linked && list) then 1 else 0)
            && t.relocated - s.relocated == (if found && clear && !(c.linked && list) then 1 else 0)
            && t.nol1 - s.nol1 == (if found && !c.l1 then 1 else 0)
            && t.l2hdr - s.l2hdr == (if found && c.l1 && c.l2 then 1 else 0)
            && t.io - s.io == (if found && c.l1 && c.io then 1 else 0)
            && t.l2write - s.l2write == (if found && c.l1 && c.l2writing then 1 else 0)
            && t.acb - s.acb == (if found && c.l1 && c.acb then 1 else 0)
            && t.held - s.held == (if found && c.l1 && c.refs != 0 then 1 else 0)
  {
  }

  /** Every call counts in exactly one of the five outcome counters. */
  lemma OneOutcome(a: Arc, c: Contents, chain: bool, raced: bool, list: bool, s: Counters)
    ensures var t := a.Verdict(c, chain, raced, list, s).1;
            t.relocated + t.notLive + t.raced + t.lockMiss + t.deferred ==
            s.relocated + s.notLive + s.raced + s.lockMiss + s.deferred + 1
  {
  }

  // ----- the bridge -----

  /** spl_kmem_cache_move_cb: the replacement is constructed before the callback sees either object, and whichever of
      the two is going to be freed is destructed. The replacement may even be the old object itself, which its
      owner freed a moment ago: then it is constructed, so the callback finds nothing to move in it. */
  method MoveCallback(a: Arc, obj: Header, spare: Header, raced: bool) returns (done: bool, freed: Header)
    requires a.Valid() && obj in a.headers && spare in a.headers
    requires !spare.c.hashed && forall l :: spare !in ItemsOf(a.lists, l)
    modifies a`table, a`lists, a`args, a`taken, a`stats, a`chainLocks, a`listLocks, obj, spare
    ensures a.Valid() && (done ==> obj != spare)
    ensures obj != spare ==> (done <==> old(a.Movable(obj.c, raced, a.chainLocks, a.listLocks)))
    ensures freed == (if done then obj else spare)
    ensures freed.c.dva == 0 && !freed.c.hashed && !freed.c.linked && forall l :: freed !in ItemsOf(a.lists, l)
    ensures !done ==> a.table == old(a.table) && a.lists == old(a.lists) && a.args == old(a.args)
    ensures !done && obj != spare ==> obj.c == old(obj.c)
  {
    spare.c := Contents(0, false, false, false, false, false, false, 0, ANON, false, None, None, 0);
    forall h | h in a.headers ensures a.HeaderOk(h) { assert old(a.HeaderOk(h)); }
    var rc, waits := a.Move(obj, spare, raced);
    done := rc == Yes;
    freed := if done then obj else spare;
  }
}
