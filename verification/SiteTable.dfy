module SiteTable {
  /**
   The site table of packages/slabwho/slabwho.c: site_for, an open-addressed index over the array of sites, and the
   walk that counts a slab's objects by the site that allocated them.
   */
  import opened Basics

  const SLOTS: nat := 2048
  const MAX_SITES: nat := 1024
  const SEEN_MAX: nat := 64

  type Cache = nat
  type Tag = nat

  datatype Key = Key(cache: Cache, tag: Tag)

  /** A linear search for the pair. */
  function Find(keys: seq<Key>, k: Key): (r: Option<nat>)
    ensures r.Some? ==> r.value < |keys| && keys[r.value] == k
    ensures r.None? ==> k !in keys
  {
    if keys == [] then None
    else if keys[|keys| - 1] == k then Some(|keys| - 1)
    else Find(keys[..|keys| - 1], k)
  }

  ghost function Range(n: nat): set<nat> { if n == 0 then {} else Range(n - 1) + {n - 1} }

  lemma {:induction false} RangeCount(n: nat)
    ensures |Range(n)| == n && forall x :: x in Range(n) <==> 0 <= x < n
  {
    if n > 0 { RangeCount(n - 1); }
  }

  ghost function Elems(s: seq<nat>): set<nat> { set x | x in s }

  lemma {:induction false} FewElems(s: seq<nat>)
    ensures |Elems(s)| <= |s|
  {
    if s != [] {
      FewElems(s[..|s| - 1]);
      assert Elems(s) == Elems(s[..|s| - 1]) + {s[|s| - 1]};
    }
  }

  /** More slots than entries: one of them is not used. */
  lemma Unused(where: seq<nat>)
    requires |where| < SLOTS
    ensures exists x :: 0 <= x < SLOTS && x !in where
  {
    FewElems(where);
    RangeCount(SLOTS);
    if forall x :: 0 <= x < SLOTS ==> x in where {
      assert Range(SLOTS) <= Elems(where);
      SubsetCount(Range(SLOTS), Elems(where));
    }
  }

  lemma {:induction false} SubsetCount(a: set<nat>, b: set<nat>)
    requires a <= b
    ensures |a| <= |b|
  {
    assert b == a + (b - a);
  }

  function Occurrences(objs: seq<Key>, k: Key): nat {
    if objs == [] then 0 else Occurrences(objs[..|objs| - 1], k) + (if objs[|objs| - 1] == k then 1 else 0)
  }

  lemma {:induction false} NoOccurrence(objs: seq<Key>, k: Key)
    requires k !in objs
    ensures Occurrences(objs, k) == 0
  {
    if objs != [] { NoOccurrence(objs[..|objs| - 1], k); }
  }

  lemma OneMore(objs: seq<Key>, k: Key, x: Key)
    ensures Occurrences(objs + [x], k) == Occurrences(objs, k) + (if x == k then 1 else 0)
  {
    assert (objs + [x])[..|objs|] == objs;
  }

  /** The different pairs of the objects, in the order they first appear, as far as the table has room. */
  function Recorded(objs: seq<Key>): (r: seq<Key>)
    ensures |r| <= MAX_SITES
  {
    if objs == [] then []
    else
      var r := Recorded(objs[..|objs| - 1]);
      var k := objs[|objs| - 1];
      if k in r || |r| == MAX_SITES then r else r + [k]
  }

  lemma RecordedOn(objs: seq<Key>, k: Key)
    ensures var r := Recorded(objs); Recorded(objs + [k]) == if k in r || |r| == MAX_SITES then r else r + [k]
  {
    assert (objs + [k])[..|objs|] == objs;
  }

  lemma {:induction false} RecordedAll(objs: seq<Key>)
    ensures forall k :: k in Recorded(objs) ==> k in objs
    ensures |Recorded(objs)| < MAX_SITES ==> forall k :: k in objs ==> k in Recorded(objs)
  {
    if objs != [] { RecordedAll(objs[..|objs| - 1]); }
  }

  /** The first different sites of a block that are remembered for it: those the table has an entry for, as many as
      there is room to remember. */
  function Marks(b: seq<Key>, rec: seq<Key>): (r: seq<Key>)
    ensures |r| <= SEEN_MAX
  {
    if b == [] then []
    else
      var r := Marks(b[..|b| - 1], rec);
      var k := b[|b| - 1];
      if k in rec && k !in r && |r| < SEEN_MAX then r + [k] else r
  }

  lemma MarksOn(b: seq<Key>, rec: seq<Key>, k: Key)
    ensures var r := Marks(b, rec); Marks(b + [k], rec) == if k in rec && k !in r && |r| < SEEN_MAX then r + [k] else r
  {
    assert (b + [k])[..|b|] == b;
  }

  /** They are different sites of the block. */
  lemma {:induction false} MarksOf(b: seq<Key>, rec: seq<Key>)
    ensures var r := Marks(b, rec);
            && (forall k :: k in r ==> k in b && k in rec)
            && forall i, j :: 0 <= i < j < |r| ==> r[i] != r[j]
  {
    if b != [] { MarksOf(b[..|b| - 1], rec); }
  }

  /** A site that the block has no object of makes no difference to what is remembered for it. */
  lemma {:induction false} MarksKept(b: seq<Key>, rec: seq<Key>, k: Key)
    requires k !in b
    ensures Marks(b, rec + [k]) == Marks(b, rec)
  {
    if b != [] { MarksKept(b[..|b| - 1], rec, k); }
  }

  /** How many of the blocks remember the site. */
  function Remembered(bs: seq<seq<Key>>, rec: seq<Key>, k: Key): nat {
    if bs == [] then 0
    else Remembered(bs[..|bs| - 1], rec, k) + (if k in Marks(bs[|bs| - 1], rec) then 1 else 0)
  }

  lemma {:induction false} RememberedKept(bs: seq<seq<Key>>, rec: seq<Key>, added: Key, k: Key)
    requires added !in Flat(bs)
    ensures Remembered(bs, rec + [added], k) == Remembered(bs, rec, k)
  {
    if bs != [] {
      RememberedKept(bs[..|bs| - 1], rec, added, k);
      MarksKept(bs[|bs| - 1], rec, added);
    }
  }

  /** How many of the blocks hold an object of the site. */
  function BlocksWith(bs: seq<seq<Key>>, k: Key): nat {
    if bs == [] then 0 else BlocksWith(bs[..|bs| - 1], k) + (if k in bs[|bs| - 1] then 1 else 0)
  }

  function Flat(bs: seq<seq<Key>>): seq<Key> { if bs == [] then [] else Flat(bs[..|bs| - 1]) + bs[|bs| - 1] }

  lemma {:induction false} NotRemembered(bs: seq<seq<Key>>, rec: seq<Key>, k: Key)
    requires k !in Flat(bs)
    ensures Remembered(bs, rec, k) == 0
  {
    if bs != [] {
      NotRemembered(bs[..|bs| - 1], rec, k);
      MarksOf(bs[|bs| - 1], rec);
    }
  }

  // ----- when the blocks of a site are counted right -----

  /** In every block that holds it, the site is among the ones remembered. */
  predicate AlwaysMarked(bs: seq<seq<Key>>, rec: seq<Key>, k: Key) {
    forall i :: 0 <= i < |bs| && k in bs[i] ==> k in Marks(bs[i], rec)
  }

  lemma {:induction false} RememberedAtMost(bs: seq<seq<Key>>, rec: seq<Key>, k: Key)
    ensures Remembered(bs, rec, k) <= BlocksWith(bs, k)
  {
    if bs != [] {
      RememberedAtMost(bs[..|bs| - 1], rec, k);
      MarksOf(bs[|bs| - 1], rec);
    }
  }

  /** The blocks of a site are counted exactly if and only if each block that holds it has it among its first
      SEEN_MAX different sites of the table. */
  lemma {:induction false} ExactIffMarked(bs: seq<seq<Key>>, rec: seq<Key>, k: Key)
    ensures Remembered(bs, rec, k) == BlocksWith(bs, k) <==> AlwaysMarked(bs, rec, k)
  {
    if bs != [] {
      var n := |bs| - 1;
      ExactIffMarked(bs[..n], rec, k);
      RememberedAtMost(bs[..n], rec, k);
      MarksOf(bs[n], rec);
      assert AlwaysMarked(bs, rec, k) <==> AlwaysMarked(bs[..n], rec, k) && (k in bs[n] ==> k in Marks(bs[n], rec)) by {
        forall i | 0 <= i < n ensures bs[i] == bs[..n][i] { }
      }
    }
  }

  /** The different sites of a block that the table has. */
  function Sites(b: seq<Key>, rec: seq<Key>): (r: set<Key>)
    ensures forall k :: k in r <==> k in b && k in rec
  {
    set k | k in b && k in rec
  }

  lemma {:induction false} MarksAreAll(b: seq<Key>, rec: seq<Key>)
    ensures forall k :: k in Sites(b, rec) ==> k in Marks(b, rec) || |Marks(b, rec)| == SEEN_MAX
  {
    if b != [] { MarksAreAll(b[..|b| - 1], rec); }
  }

  /** A block with at most SEEN_MAX different sites has all of them remembered: none is dropped before the next. */
  lemma FewSites(b: seq<Key>, rec: seq<Key>, k: Key)
    requires |Sites(b, rec)| <= SEEN_MAX && k in b && k in rec
    ensures k in Marks(b, rec)
  {
    MarksAreAll(b, rec);
    MarksOf(b, rec);
    if k !in Marks(b, rec) {
      var m := Marks(b, rec);
      DistinctCount(m);
      var few := set x | x in m;
      assert few <= Sites(b, rec) && k in Sites(b, rec) && k !in few;
      KeysWithin(few + {k}, Sites(b, rec));
    }
  }

  lemma {:induction false} DistinctCount(m: seq<Key>)
    requires forall i, j :: 0 <= i < j < |m| ==> m[i] != m[j]
    ensures |set x | x in m| == |m|
  {
    if m != [] {
      var n := |m| - 1;
      DistinctCount(m[..n]);
      assert (set x | x in m) == (set x | x in m[..n]) + {m[n]};
    }
  }

  lemma KeysWithin(a: set<Key>, b: set<Key>)
    requires a <= b
    ensures |a| <= |b|
  {
    assert b == a + (b - a);
  }

  /** So with no block of more than SEEN_MAX different sites every count is right. */
  lemma FewSitesExact(bs: seq<seq<Key>>, rec: seq<Key>, k: Key)
    requires k in rec && forall i :: 0 <= i < |bs| ==> |Sites(bs[i], rec)| <= SEEN_MAX
    ensures Remembered(bs, rec, k) == BlocksWith(bs, k)
  {
    forall i | 0 <= i < |bs| && k in bs[i] ensures k in Marks(bs[i], rec) { FewSites(bs[i], rec, k); }
    ExactIffMarked(bs, rec, k);
  }

  /** One object of each of `n` sites. */
  function OneOfEach(n: nat): (r: seq<Key>) { if n == 0 then [] else OneOfEach(n - 1) + [Key(0, n - 1)] }

  lemma {:induction false} InEach(n: nat, k: Key)
    ensures k in OneOfEach(n) <==> k.cache == 0 && k.tag < n
    ensures |OneOfEach(n)| == n
  {
    if n > 0 { InEach(n - 1, k); }
  }

  lemma RecordedFresh(objs: seq<Key>, k: Key, more: seq<Key>)
    requires k !in objs && |Recorded(objs)| < MAX_SITES && more == objs + [k]
    ensures Recorded(more) == Recorded(objs) + [k]
  {
    RecordedAll(objs);
    RecordedOn(objs, k);
  }

  lemma {:induction false} EachRecorded(n: nat)
    requires n <= MAX_SITES
    ensures Recorded(OneOfEach(n)) == OneOfEach(n)
  {
    if n > 0 {
      EachRecorded(n - 1);
      InEach(n - 1, Key(0, n - 1));
      RecordedFresh(OneOfEach(n - 1), Key(0, n - 1), OneOfEach(n));
    }
  }

  lemma MarksFresh(b: seq<Key>, rec: seq<Key>, k: Key, more: seq<Key>)
    requires k in rec && k !in b && |Marks(b, rec)| < SEEN_MAX && more == b + [k]
    ensures Marks(more, rec) == Marks(b, rec) + [k]
  {
    MarksOf(b, rec);
    MarksOn(b, rec, k);
  }

  lemma {:induction false} EachMarked(n: nat, m: nat)
    requires n <= SEEN_MAX && n <= m
    ensures Marks(OneOfEach(n), OneOfEach(m)) == OneOfEach(n)
  {
    if n > 0 {
      var k := Key(0, n - 1);
      EachMarked(n - 1, m);
      InEach(n - 1, k);
      InEach(m, k);
      MarksFresh(OneOfEach(n - 1), OneOfEach(m), k, OneOfEach(n));
    }
  }

  lemma OneBlock(b: seq<Key>, rec: seq<Key>, k: Key)
    ensures Flat([b]) == b
    ensures BlocksWith([b], k) == (if k in b then 1 else 0) &&
            Remembered([b], rec, k) == (if k in Marks(b, rec) then 1 else 0)
  {
    var bs: seq<seq<Key>> := [b];
    assert bs[..0] == [];
  }

  /** A block of 65 sites, one object each: the last has an object on a block and is counted on none, and all the
      others are counted right. */
  lemma SixtyFifthDropped(k: Key)
    requires k.cache == 0 && k.tag <= SEEN_MAX
    ensures var b := OneOfEach(SEEN_MAX + 1);
            && Recorded(Flat([b])) == b && k in b && BlocksWith([b], k) == 1
            && Remembered([b], b, k) == (if k.tag == SEEN_MAX then 0 else 1)
  {
    var b := OneOfEach(SEEN_MAX + 1);
    EachRecorded(SEEN_MAX + 1);
    EachMarked(SEEN_MAX, SEEN_MAX + 1);
    MarksOn(OneOfEach(SEEN_MAX), b, Key(0, SEEN_MAX));
    InEach(SEEN_MAX, k);
    InEach(SEEN_MAX + 1, k);
    OneBlock(b, b, k);
  }

  class Table {
    var keys: seq<Key>
    var objects: seq<nat>
    var blocks: seq<nat>
    const slots: array<int>
    const hash: Key -> nat
    ghost var dist: seq<nat>

    /** Where the hash of a pair points. */
    function Home(k: Key): nat { hash(k) % SLOTS }

    /** The slot `d` places after the pair's own, around the end. */
    function Slot(k: Key, d: nat): nat { (Home(k) + d) % SLOTS }

    ghost predicate Placed(i: nat)
      requires slots.Length == SLOTS && i < |keys| == |dist|
      reads `keys, `dist, slots
    {
      && dist[i] < SLOTS && slots[Slot(keys[i], dist[i])] == i
      && forall d :: 0 <= d < dist[i] ==> slots[Slot(keys[i], d)] != -1
    }

    /** Every pair has at most one entry; every entry is found on the way from its hash; and a slot that is not empty
        names an entry that is placed there. */
    ghost predicate Indexed()
      reads `keys, `dist, slots
    {
      && slots.Length == SLOTS && |keys| <= MAX_SITES && |keys| == |dist| && Different(keys)
      && (forall i :: 0 <= i < |keys| ==> Placed(i))
      && forall x :: 0 <= x < SLOTS && slots[x] != -1 ==>
           0 <= slots[x] < |keys| && Slot(keys[slots[x]], dist[slots[x]]) == x
    }

    ghost predicate Valid()
      reads this, slots
    {
      Indexed() && |keys| == |objects| == |blocks|
    }

    ghost function Places(): seq<nat>
      requires |keys| == |dist|
      reads this
    {
      seq(|keys|, i requires 0 <= i < |keys| reads this requires |keys| == |dist| => Slot(keys[i], dist[i]))
    }

    /** The table is never full: a probe always comes to an empty slot. */
    lemma SomeEmpty()
      requires Indexed()
      ensures exists x :: 0 <= x < SLOTS && slots[x] == -1
    {
      forall y | 0 <= y < SLOTS && slots[y] != -1 ensures y in Places() { assert Places()[slots[y]] == y; }
      Unused(Places());
      var x :| 0 <= x < SLOTS && x !in Places();
      assert slots[x] == -1;
    }

    constructor (hash: Key -> nat)
      ensures Valid() && keys == [] && fresh(slots)
    {
      this.hash := hash;
      slots := new int[SLOTS](_ => -1);
      keys, objects, blocks, dist := [], [], [], [];
    }

    /** The probing loop of site_for: it comes to the pair's entry, or else to an empty slot. */
    method Probe(k: Key) returns (probes: nat)
      requires Indexed()
      ensures probes < SLOTS
      ensures slots[Slot(k, probes)] != -1 ==> 0 <= slots[Slot(k, probes)] < |keys| && keys[slots[Slot(k, probes)]] == k
      ensures slots[Slot(k, probes)] == -1 ==> k !in keys && forall d :: 0 <= d < probes ==> slots[Slot(k, d)] != -1
    {
      var slot := Home(k);
      probes := 0;
      ghost var ahead := EmptyAhead(k);
      while probes < SLOTS
        invariant 0 <= probes <= ahead && slot == Slot(k, probes)
        invariant forall d :: 0 <= d < probes ==> slots[Slot(k, d)] != -1 && keys[slots[Slot(k, d)]] != k
      {
        var st := slots[slot];
        if st == -1 {
          NotThere(k, probes);
          return;
        }
        if keys[st] == k {
          return;
        }
        NextSlot(Home(k), probes);
        slot := (slot + 1) % SLOTS;
        probes := probes + 1;
      }
      assert false;
    }

    /** site_for: what a linear search would answer, with the pair added if it is new and there is room. */
    method SiteFor(k: Key) returns (r: Option<nat>)
      requires Valid()
      modifies this, slots
      ensures Valid()
      ensures r == match Find(old(keys), k)
                   case Some(i) => Some(i)
                   case None => if |old(keys)| < MAX_SITES then Some(|old(keys)|) else None
      ensures keys == if Find(old(keys), k).None? && |old(keys)| < MAX_SITES then old(keys) + [k] else old(keys)
      ensures objects == if |keys| > |old(keys)| then old(objects) + [0] else old(objects)
      ensures blocks == if |keys| > |old(keys)| then old(blocks) + [0] else old(blocks)
    {
      var probes := Probe(k);
      var st := slots[Slot(k, probes)];
      if st != -1 {
        return Some(st);
      }
      if |keys| == MAX_SITES {
        return None;
      }
      Add(k, probes);
      return Some(|keys| - 1);
    }

    /** An empty slot on the way means the pair has no entry. */
    lemma NotThere(k: Key, probes: nat)
      requires Indexed() && probes < SLOTS && slots[Slot(k, probes)] == -1
      requires forall d :: 0 <= d < probes ==> slots[Slot(k, d)] != -1 && keys[slots[Slot(k, d)]] != k
      ensures k !in keys
    {
      forall i | 0 <= i < |keys| ensures keys[i] != k { assert Placed(i); }
    }

    /** Wherever a search starts, there is an empty slot on its way. */
    lemma EmptyAhead(k: Key) returns (d: nat)
      requires Indexed()
      ensures d < SLOTS && slots[Slot(k, d)] == -1
    {
      SomeEmpty();
      var x :| 0 <= x < SLOTS && slots[x] == -1;
      d := (x + SLOTS - Home(k)) % SLOTS;
      assert Slot(k, d) == x;
    }

    method Add(k: Key, probes: nat)
      requires Valid() && k !in keys && |keys| < MAX_SITES && probes < SLOTS && slots[Slot(k, probes)] == -1
      requires forall d :: 0 <= d < probes ==> slots[Slot(k, d)] != -1
      modifies this, slots
      ensures Valid() && keys == old(keys) + [k] && objects == old(objects) + [0] && blocks == old(blocks) + [0]
    {
      ghost var n := |keys|;
      slots[Slot(k, probes)] := |keys|;
      keys, objects, blocks, dist := keys + [k], objects + [0], blocks + [0], dist + [probes];
      forall i | 0 <= i < |keys| ensures Placed(i) { if i < n { assert old(Placed(i)); } }
    }

    // ----- the walk -----

    ghost predicate Tallied(all: seq<Key>)
      reads this
    {
      IsTally(keys, objects, all)
    }

    ghost predicate Counted(bs: seq<seq<Key>>, done: seq<Key>)
      reads this
    {
      IsCount(keys, blocks, bs, done)
    }

    /** One allocated object of attribute_page: its site counts it, and its block once. */
    method Attribute(k: Key, seen: seq<nat>, ghost bs: seq<seq<Key>>, ghost done: seq<Key>) returns (seen': seq<nat>)
      requires Valid() && Tallied(Flat(bs) + done) && IsSeen(keys, seen, done) && Counted(bs, done)
      modifies this, slots
      ensures Valid() && Tallied(Flat(bs) + done + [k]) && IsSeen(keys, seen', done + [k]) && Counted(bs, done + [k])
    {
      var st := Record(k, seen, bs, done);
      seen' := seen;
      if st == None {
        MarksOn(done, keys, k);
        return;
      }
      var i := st.value;
      SeenOn(keys, seen, done, i);
      CountOn(keys, blocks, seen, bs, done, i);
      if i !in seen && |seen| < SEEN_MAX {
        seen' := seen + [i];
        blocks := blocks[i := blocks[i] + 1];
      }
    }

    /** The object is counted for its site, if the table has it or has room for it. */
    method Tally(k: Key, ghost all: seq<Key>) returns (r: Option<nat>)
      requires Valid() && Tallied(all)
      modifies this, slots
      ensures Valid() && Tallied(all + [k])
      ensures if r.Some? then r.value < |keys| && keys[r.value] == k else k !in keys
      ensures keys == old(keys) || (keys == old(keys) + [k] && k !in all)
      ensures blocks == if keys == old(keys) then old(blocks) else old(blocks) + [0]
    {
      ghost var was, counts := keys, objects;
      RecordedAll(all);
      r := SiteFor(k);
      TallyOn(was, counts, all, k);
      if r.Some? {
        objects := objects[r.value := objects[r.value] + 1];
      }
    }

    /** The same while a block is walked. */
    method Record(k: Key, ghost seen: seq<nat>, ghost bs: seq<seq<Key>>, ghost done: seq<Key>) returns (r: Option<nat>)
      requires Valid() && Tallied(Flat(bs) + done) && IsSeen(keys, seen, done) && Counted(bs, done)
      modifies this, slots
      ensures Valid() && Tallied(Flat(bs) + done + [k]) && IsSeen(keys, seen, done) && Counted(bs, done)
      ensures if r.Some? then r.value < |keys| && keys[r.value] == k else k !in keys
    {
      ghost var was := keys;
      r := Tally(k, Flat(bs) + done);
      if keys != was { NewSite(bs, done, was, k); }
    }

    /** One block of walk_sites: the objects of its slab pages, each attributed once. */
    method WalkBlock(b: seq<Key>, ghost bs: seq<seq<Key>>)
      requires Valid() && Tallied(Flat(bs)) && Counted(bs, [])
      modifies this, slots
      ensures Valid() && Tallied(Flat(bs + [b])) && Counted(bs + [b], [])
    {
      var seen: seq<nat> := [];
      assert Flat(bs) + b[..0] == Flat(bs) && b[..0] == [];
      BlockDone(bs, b);
      for j := 0 to |b|
        invariant Valid() && Tallied(Flat(bs) + b[..j]) && IsSeen(keys, seen, b[..j]) && Counted(bs, b[..j])
      {
        OneFurther(Flat(bs), b, j);
        seen := Attribute(b[j], seen, bs, b[..j]);
      }
      assert b[..|b|] == b;
    }
  }

  lemma OneFurther(all: seq<Key>, b: seq<Key>, j: nat)
    requires j < |b|
    ensures b[..j + 1] == b[..j] + [b[j]] && all + b[..j + 1] == all + b[..j] + [b[j]]
  {
  }

  lemma BlockDone(bs: seq<seq<Key>>, b: seq<Key>)
    ensures Flat(bs + [b]) == Flat(bs) + b
    ensures forall rec: seq<Key>, k ::
              Remembered(bs + [b], rec, k) == Remembered(bs, rec, k) + (if k in Marks(b, rec) then 1 else 0)
  {
    assert (bs + [b])[..|bs|] == bs;
  }

  lemma NextSlot(home: nat, d: nat)
    ensures ((home + d) % SLOTS + 1) % SLOTS == (home + d + 1) % SLOTS
  {
  }

  ghost predicate Different(keys: seq<Key>) { forall i, j :: 0 <= i < j < |keys| ==> keys[i] != keys[j] }

  /** The sites are the ones among `all` there is room for, and each counts exactly its objects. */
  ghost predicate IsTally(keys: seq<Key>, objects: seq<nat>, all: seq<Key>) {
    keys == Recorded(all) && |objects| == |keys| &&
    forall i :: 0 <= i < |keys| ==> objects[i] == Occurrences(all, keys[i])
  }

  /** One object more, of a site that has an entry, gets one, or finds no room. */
  lemma TallyOn(keys: seq<Key>, objects: seq<nat>, all: seq<Key>, k: Key)
    requires IsTally(keys, objects, all) && Different(keys)
    ensures forall i :: 0 <= i < |keys| && keys[i] == k ==> IsTally(keys, objects[i := objects[i] + 1], all + [k])
    ensures k !in keys && |keys| < MAX_SITES ==> IsTally(keys + [k], objects + [1], all + [k])
    ensures k !in keys && |keys| == MAX_SITES ==> IsTally(keys, objects, all + [k])
  {
    RecordedOn(all, k);
    RecordedAll(all);
    if k !in all { NoOccurrence(all, k); }
    forall x ensures Occurrences(all + [k], x) == Occurrences(all, x) + (if x == k then 1 else 0) {
      OneMore(all, x, k);
    }
  }

  /** The sites remembered for the block so far, `done` being its objects. */
  ghost predicate IsSeen(keys: seq<Key>, seen: seq<nat>, done: seq<Key>) {
    && |seen| == |Marks(done, keys)|
    && forall j :: 0 <= j < |seen| ==> seen[j] < |keys| && keys[seen[j]] == Marks(done, keys)[j]
  }

  lemma SeenIffMarked(keys: seq<Key>, seen: seq<nat>, done: seq<Key>, i: nat)
    requires Different(keys) && IsSeen(keys, seen, done) && i < |keys|
    ensures i in seen <==> keys[i] in Marks(done, keys)
  {
    if keys[i] in Marks(done, keys) {
      var j :| 0 <= j < |seen| && Marks(done, keys)[j] == keys[i];
      assert keys[seen[j]] == keys[i];
    }
  }

  lemma SeenOn(keys: seq<Key>, seen: seq<nat>, done: seq<Key>, i: nat)
    requires Different(keys) && IsSeen(keys, seen, done) && i < |keys|
    ensures IsSeen(keys, if i !in seen && |seen| < SEEN_MAX then seen + [i] else seen, done + [keys[i]])
  {
    SeenIffMarked(keys, seen, done, i);
    MarksOn(done, keys, keys[i]);
  }

  /** Each site counts the blocks that remembered it, and the present one if it already does. */
  ghost predicate IsCount(keys: seq<Key>, blocks: seq<nat>, bs: seq<seq<Key>>, done: seq<Key>) {
    && |blocks| == |keys|
    && forall i :: 0 <= i < |keys| ==>
         blocks[i] == Remembered(bs, keys, keys[i]) + (if keys[i] in Marks(done, keys) then 1 else 0)
  }

  lemma CountOn(keys: seq<Key>, blocks: seq<nat>, seen: seq<nat>, bs: seq<seq<Key>>, done: seq<Key>, i: nat)
    requires Different(keys) && IsSeen(keys, seen, done) && IsCount(keys, blocks, bs, done) && i < |keys|
    ensures IsCount(keys, if i !in seen && |seen| < SEEN_MAX then blocks[i := blocks[i] + 1] else blocks, bs,
                    done + [keys[i]])
  {
    SeenIffMarked(keys, seen, done, i);
    MarksOn(done, keys, keys[i]);
  }

  /** A site new to the table is on none of the blocks walked so far, and changes nothing for the others. */
  lemma NewSite(bs: seq<seq<Key>>, done: seq<Key>, rec: seq<Key>, k: Key)
    requires k !in Flat(bs) && k !in done
    ensures Marks(done, rec + [k]) == Marks(done, rec)
    ensures Remembered(bs, rec + [k], k) == 0 && k !in Marks(done, rec + [k])
    ensures forall x :: Remembered(bs, rec + [k], x) == Remembered(bs, rec, x)
  {
    MarksKept(done, rec, k);
    MarksOf(done, rec + [k]);
    NotRemembered(bs, rec + [k], k);
    forall x ensures Remembered(bs, rec + [k], x) == Remembered(bs, rec, x) { RememberedKept(bs, rec, k, x); }
  }

  /** walk_sites, from an emptied table. The sites are the different ones met, in order, up to the room there is; each
      counts exactly its objects, and the blocks among whose first SEEN_MAX different sites it is. */
  method WalkSites(t: Table, bs: seq<seq<Key>>)
    requires t.Valid() && t.keys == []
    modifies t, t.slots
    ensures t.Valid() && t.keys == Recorded(Flat(bs)) && |t.objects| == |t.blocks| == |t.keys|
    ensures forall i :: 0 <= i < |t.keys| ==>
              t.objects[i] == Occurrences(Flat(bs), t.keys[i]) && t.blocks[i] == Remembered(bs, t.keys, t.keys[i])
  {
    for j := 0 to |bs|
      invariant t.Valid() && t.Tallied(Flat(bs[..j])) && t.Counted(bs[..j], [])
    {
      assert bs[..j + 1] == bs[..j] + [bs[j]];
      t.WalkBlock(bs[j], bs[..j]);
    }
    assert bs[..|bs|] == bs;
  }

  // ----- which page an object belongs to -----

  const PAGE: nat := 4096

  /** The objects that attribute_page takes for the page at `off` of a slab of `count` objects of `size` bytes. */
  function First(off: nat, size: nat): nat
    requires size > 0
  {
    (off + size - 1) / size
  }

  function Last(off: nat, size: nat, count: nat): int
    requires size > 0
  {
    Min((off + PAGE - 1) / size, count - 1)
  }

  /** An object is taken for a page exactly if its first byte lies on it. */
  lemma TakenIffStarts(off: nat, size: nat, count: nat, i: nat)
    requires size > 0 && i < count
    ensures First(off, size) <= i <= Last(off, size, count) <==> off <= i * size < off + PAGE
  {
    UpToDiv(off + PAGE - 1, size, i);
    UpToDiv(off + size - 1, size, i + 1);
  }

  lemma StartsInside(size: nat, count: nat, i: nat)
    requires size > 0 && i < count
    ensures i * size < count * size
  {
    var d := count - i;
    MulBounds(d, size);
    MulAdds(i, d, size);
  }

  lemma PageOf(x: nat, pages: nat, p: nat)
    requires x < pages * PAGE
    ensures x / PAGE < pages && (p == x / PAGE <==> p * PAGE <= x < p * PAGE + PAGE)
  {
  }

  /** Over the pages of a slab every object is attributed to one page, the one its first byte is on. */
  lemma OnePage(size: nat, count: nat, pages: nat, i: nat, p: nat)
    requires size > 0 && i < count && count * size <= pages * PAGE && p < pages
    ensures i * size / PAGE < pages
    ensures First(p * PAGE, size) <= i <= Last(p * PAGE, size, count) <==> p == i * size / PAGE
  {
    StartsInside(size, count, i);
    TakenIffStarts(p * PAGE, size, count, i);
    PageOf(i * size, pages, p);
  }
}
