module FolioReuseRun {
  /**
   The runs behind FolioReuse. One chunk of a buffer is freed and its page becomes the migration target of the next,
   which is as far as the invariant goes. Going on, the next migration repoints the entry already given back, the free
   loop comes to a page it no longer owns, and what it frees there is a chunk of another buffer.
   */
  import opened Basics
  import opened FolioMachine
  import opened FolioInvariant
  import opened FolioFrames
  import opened FolioRuns
  import opened FolioTheorems
  import opened FolioReuse
  import opened FolioHops

  /** The run's folios, 10 and 11, its first buffer, and its two tasks; its second buffer is still to come. */
  ghost predicate Shows(s: State, strict: bool, x: Folio, y: Folio, b: Abd, p0: Pc, p1: Pc) {
    && Reached(s, strict) && Fo(s, 10) == x && Fo(s, 11) == y && Ab(s, 0) == b && 1 !in s.abds
    && At(s, 0) == p0 && At(s, 1) == p1
  }

  ghost predicate RestIdle(s: State) { forall t: Task :: t > 1 ==> At(s, t).Idle? }

  function Chunk(bytes: Bytes, i: nat): Folio { NewChunk(1, bytes, Entry(0, i)) }

  const NEW := Abd(true, false, false, false, [], [], 0, None)
  const BUILT := Abd(true, true, false, false, [10, 11], [[7], [8]], 0, None)
  const JOINED := BUILT.(lru := true)
  const FREEING := JOINED.(dying := true, mtx := Some(0))

  /** The first page once the free loop has given it back. */
  const GIVEN := Joined([7], 0).(count := 0, priv := NoPriv, mapped := false, home := None)

  // ----- up to the first migration -----

  lemma AddsFirst() returns (s: State)
    ensures Shows(s, true, Chunk([7], 0), FREE_PAGE, NEW.(sg := [10], data := [[7]]), Building(0), Idle) && RestIdle(s)
  {
    ReachedInit(true);
    s := Hop(INIT, 0, NewAbd(0), true);
    s := Hop(s, 0, AddChunk(10, 1, [7]), true);
  }

  lemma Builds() returns (s: State)
    ensures Shows(s, true, Chunk([7], 0), Chunk([8], 1), BUILT, Idle, Idle) && RestIdle(s)
  {
    s := AddsFirst();
    s := Hop(s, 0, AddChunk(11, 1, [8]), true);
    s := Hop(s, 0, Publish, true);
  }

  lemma JoinEnters(s0: State) returns (s: State)
    requires Shows(s0, true, Chunk([7], 0), Chunk([8], 1), BUILT, Idle, Idle) && RestIdle(s0)
    ensures Shows(s, true, Chunk([7], 0), Chunk([8], 1), JOINED.(mtx := Some(0)), Join(0, 0, 0, NextJoin), Idle)
    ensures RestIdle(s)
  {
    s := Hop(s0, 0, JoinStart(0), true);
  }

  lemma JoinLeaves(s0: State) returns (s: State)
    requires Shows(s0, true, Joined([7], 0), Joined([8], 1), JOINED.(mtx := Some(0)), Join(0, 2, 0, NextJoin), Idle)
    requires RestIdle(s0)
    ensures Shows(s, true, Joined([7], 0), Joined([8], 1), JOINED, Idle, Idle) && RestIdle(s)
  {
    s := Hop(s0, 0, JoinEnd, true);
  }

  lemma Joins(s0: State) returns (s: State)
    requires Shows(s0, true, Chunk([7], 0), Chunk([8], 1), BUILT, Idle, Idle) && RestIdle(s0)
    ensures Shows(s, true, Joined([7], 0), Joined([8], 1), JOINED, Idle, Idle) && RestIdle(s)
  {
    s := JoinEnters(s0);
    s := JoinTakes(s, 0, 10);
    s := JoinLets(s, 0, 10);
    s := JoinTakes(s, 1, 11);
    s := JoinLets(s, 1, 11);
    s := JoinLeaves(s);
  }

  lemma FreeEnters(s0: State) returns (s: State)
    requires Shows(s0, true, Joined([7], 0), Joined([8], 1), JOINED, Idle, Idle) && RestIdle(s0)
    ensures Shows(s, true, Joined([7], 0), Joined([8], 1), FREEING, Free(0, 0, 0, NextFree), Idle)
  {
    forall t: Task ensures !Walks(At(s0, t), 0) { assert t > 1 ==> At(s0, t).Idle?; }
    s := Hop(s0, 0, FreeStart(0), true);
    s := Hop(s, 0, FreeEnter, true);
  }

  lemma FreesFirst(s0: State) returns (s: State)
    requires Shows(s0, true, Joined([7], 0), Joined([8], 1), FREEING, Free(0, 0, 0, NextFree), Idle)
    ensures Shows(s, true, GIVEN, Joined([8], 1), FREEING.(gone := 1), Free(0, 1, 0, NextFree), Idle)
  {
    var s1 := FreeTakes(s0, 0, 10, true);
    var s2 := DropsJoined(s1, 0, 10);
    s := DropsLast(s2, 0, 10, true);
  }

  /** The first chunk is freed, and a migration of the second has begun. */
  lemma FirstGiven() returns (s: State)
    ensures Shows(s, true, GIVEN, LockBy(Get(Joined([8], 1), 1), 1), FREEING.(gone := 1),
                  Free(0, 1, 0, NextFree), Move(11, 0, 0, Isolated))
  {
    var s0 := Builds();
    var s1 := Joins(s0);
    var s2 := FreeEnters(s1);
    var s3 := FreesFirst(s2);
    s := MoveStarts(s3, 11, true);
  }

  /** A reachable state in which the code may take a page as its migration target that the same buffer's
      table still names; once it has, the buffer's live entry is no longer the only one with that page. */
  lemma ReusedTarget() returns (s: State)
    ensures Reachable(s) && MoveIs(At(s, 1), Isolated) && Can(s, 1, MgAlloc(10), false)
    ensures MoveIs(At(Migrated(s, 1, 10), 1), Done) && !NamedOnce(Ab(Migrated(s, 1, 10), At(s, 1).a).sg, 10)
  {
    s := FirstGiven();
    ReachableInv(s);
    assert Ab(s, 0).sg[0] == 10;
    NamedOnceIffUnnamed(s, 1, 10);
  }

  // ----- beyond it, in the code's own machine -----

  /** The second chunk moves into the first one's page, and then on: the entry that follows is the first's. */
  lemma MovesTwice() returns (s: State)
    ensures Reached(s, false) && 1 !in s.abds && Ab(s, 0) == FREEING.(gone := 1, sg := [11, 10])
    ensures At(s, 0) == Free(0, 1, 0, NextFree) && At(s, 1).Idle?
    ensures IsFree(Fo(s, 10)) && Fo(s, 11) == Joined([8], 0)
  {
    var s0 := FirstGiven();
    ReachedEither(s0);
    var s1 := Moves(s0, 11, 10, [8], 1, 1);
    var s2 := MoveStarts(s1, 10, false);
    s := Moves(s2, 10, 11, [8], 1, 0);
  }

  lemma BeginsSecond(s0: State) returns (s: State)
    requires Reached(s0, false) && 1 !in s0.abds && At(s0, 1).Idle?
    ensures Reached(s, false) && Ab(s, 0) == Ab(s0, 0) && OthersStay(s0, s, 1) && s.folios == s0.folios
    ensures Ab(s, 1) == NEW && At(s, 1) == Building(1)
  {
    s := Hop(s0, 1, NewAbd(1), false);
  }

  /** Another buffer is built, and the page is its chunk now. */
  lemma BuildsSecond(s0: State) returns (s: State)
    requires Reached(s0, false) && 1 !in s0.abds && At(s0, 1).Idle? && IsFree(Fo(s0, 10))
    ensures Reached(s, false) && Ab(s, 0) == Ab(s0, 0) && At(s, 0) == At(s0, 0) && FoliosStay(s0, s, 10, 10)
    ensures Ab(s, 1) == NEW.(built := true, sg := [10], data := [[9]])
    ensures Fo(s, 10) == NewChunk(1, [9], Entry(1, 0))
  {
    var s1 := BeginsSecond(s0);
    var s2 := Hop(s1, 1, AddChunk(10, 1, [9]), false);
    assert Ab(s2, 1) == NEW.(sg := [10], data := [[9]]);
    s := Hop(s2, 1, Publish, false);
  }

  lemma FreeLeaves(s0: State) returns (s: State)
    requires Reached(s0, false) && At(s0, 0) == Free(0, 2, 0, NextFree) && |Ab(s0, 0).sg| == 2
    ensures Reached(s, false) && s.folios == s0.folios && !Ab(s, 0).alive && Ab(s, 1) == Ab(s0, 1)
  {
    s := Hop(s0, 0, FreeEnd, false);
  }

  /** A run of the code's own machine at whose end a page belongs to the allocator that a live buffer has as
      its chunk, and the page cache still holds a chunk of a buffer that is gone, with its address. */
  lemma ForeignChunkFreed() returns (s: State)
    ensures exists run :: Legal(INIT, run, false) && Run(INIT, run) == s
    ensures InUse(Ab(s, 1)) && Ab(s, 1).sg == [10] && IsFree(Fo(s, 10))
    ensures !Ab(s, 0).alive && Fo(s, 11).mapped && Fo(s, 11).priv == Names(0)
  {
    var s0 := MovesTwice();
    var s1 := BuildsSecond(s0);
    var s2 := FreeTakes(s1, 1, 10, false);
    var s3 := DropsUnjoined(s2, 1, 10);
    var s4 := DropsLast(s3, 1, 10, false);
    s := FreeLeaves(s4);
    ReachedByRun(s, false);
  }
}
