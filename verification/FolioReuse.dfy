module FolioReuse {
  /**
   A migration may be handed, as its new folio, a page that the free loop has just given back from the
   same buffer. The entry that page stood behind still holds its old contents, so the buffer's table
   then names one page twice. The code does not rule this out; here is the exact condition, and a run
   in which the free loop loses a chunk that way.
   */
  import opened Basics
  import opened FolioMachine
  import opened FolioInvariant
  import opened FolioTheorems

  // ----- the exact condition -----

  /** The state after `n` further steps of a migration. */
  function Steps(s: State, t: Task, n: nat): State {
    if n == 0 then s else Do(Steps(s, t, n - 1), t, MgStep)
  }

  lemma SourceEntry(s: State, t: Task)
    requires Inv(s) && MoveIs(At(s, t), Isolated)
    ensures FirstNaming(Ab(s, At(s, t).a).sg, At(s, t).src, 0).Some?
  {
    assert PcOk(s, t) && HomeOk(s, At(s, t).src);
    assert At(s, t).src == Ab(s, At(s, t).a).sg[Fo(s, At(s, t).src).home.value.idx];
  }

  lemma Freezes(s: State, t: Task)
    requires MoveIs(At(s, t), Ready) && Fo(s, At(s, t).src).count == Fo(s, At(s, t).src).nr + 2
    ensures Do(s, t, MgStep).abds == s.abds && At(Do(s, t, MgStep), t) == At(s, t).(m := Frozen)
  {
  }

  lemma Switches(s: State, t: Task)
    requires MoveIs(At(s, t), Frozen) || MoveIs(At(s, t), Switched)
    ensures Do(s, t, MgStep).abds == s.abds
    ensures At(Do(s, t, MgStep), t) == At(s, t).(m := if At(s, t).m.Frozen? then Switched else Unfrozen)
  {
  }

  lemma Copies(s: State, t: Task)
    requires MoveIs(At(s, t), Unfrozen) || MoveIs(At(s, t), Copied)
    ensures Do(s, t, MgStep).abds == s.abds
    ensures At(Do(s, t, MgStep), t) == At(s, t).(m := if At(s, t).m.Unfrozen? then Copied else Moved)
  {
  }

  /** Taken: the source's count is exact, so the mapping switches and the copy is made. */
  lemma MigrationSwitches(s: State, t: Task, f: FolioId)
    requires MoveIs(At(s, t), Isolated) && At(s, t).src != f && Fo(s, At(s, t).src).count == Fo(s, At(s, t).src).nr + 2
    ensures var s' := Steps(Do(s, t, MgAlloc(f)), t, 3);
            s'.abds == s.abds && At(s', t) == At(s, t).(dst := f, m := Unfrozen)
  {
    var s0 := Do(s, t, MgAlloc(f));
    var s1 := Do(s0, t, MgStep);
    Freezes(s0, t);
    var s2 := Do(s1, t, MgStep);
    Switches(s1, t);
    Switches(s2, t);
    assert Steps(s0, t, 1) == s1 && Steps(s0, t, 2) == s2;
  }

  lemma Repoints(s: State, t: Task)
    requires MoveIs(At(s, t), Moved) && FirstNaming(Ab(s, At(s, t).a).sg, At(s, t).src, 0).Some?
    ensures var sg := Ab(s, At(s, t).a).sg;
            var k := FirstNaming(sg, At(s, t).src, 0).value;
            MoveIs(At(Do(s, t, MgStep), t), Done) && Ab(Do(s, t, MgStep), At(s, t).a).sg == sg[k := At(s, t).dst]
  {
  }

  lemma MigrationRepoints(s: State, t: Task)
    requires MoveIs(At(s, t), Unfrozen) && FirstNaming(Ab(s, At(s, t).a).sg, At(s, t).src, 0).Some?
    ensures var sg := Ab(s, At(s, t).a).sg;
            var k := FirstNaming(sg, At(s, t).src, 0).value;
            MoveIs(At(Steps(s, t, 3), t), Done) && Ab(Steps(s, t, 3), At(s, t).a).sg == sg[k := At(s, t).dst]
  {
    var s1 := Do(s, t, MgStep);
    Copies(s, t);
    var s2 := Do(s1, t, MgStep);
    Copies(s1, t);
    Repoints(s2, t);
    assert Steps(s, t, 1) == s1 && Steps(s, t, 2) == s2;
  }

  lemma ReplacedOnce(sg: seq<FolioId>, k: nat, f: FolioId)
    requires k < |sg| && sg[k] != f
    ensures NamedOnce(sg[k := f], f) <==> f !in sg
  {
    var sg' := sg[k := f];
    assert sg'[k] == f;
    forall j | 0 <= j < |sg| && sg[j] == f ensures j != k && sg'[j] == f { }
  }

  /** The state when a migration onto page `f`, which nothing disturbs, has repointed its entry. */
  function Migrated(s: State, t: Task, f: FolioId): State { Steps(Steps(Do(s, t, MgAlloc(f)), t, 3), t, 3) }

  lemma MigratedEntries(s: State, t: Task, f: FolioId)
    requires MoveIs(At(s, t), Isolated) && FirstNaming(Ab(s, At(s, t).a).sg, At(s, t).src, 0).Some?
    requires At(s, t).src != f && Fo(s, At(s, t).src).count == Fo(s, At(s, t).src).nr + 2
    ensures var sg := Ab(s, At(s, t).a).sg;
            MoveIs(At(Migrated(s, t, f), t), Done) &&
            Ab(Migrated(s, t, f), At(s, t).a).sg == sg[FirstNaming(sg, At(s, t).src, 0).value := f]
  {
    MigrationSwitches(s, t, f);
    MigrationRepoints(Steps(Do(s, t, MgAlloc(f)), t, 3), t);
  }

  /** The folio a migration leaves behind the entry is named once, as the next migration of it and the
      free loop need, exactly when no entry of the buffer, given back or not, named that page before. */
  lemma NamedOnceIffUnnamed(s: State, t: Task, f: FolioId)
    requires Inv(s) && MoveIs(At(s, t), Isolated) && IsFree(Fo(s, f))
    requires Fo(s, At(s, t).src).count == Fo(s, At(s, t).src).nr + 2
    ensures MoveIs(At(Migrated(s, t, f), t), Done)
    ensures NamedOnce(Ab(Migrated(s, t, f), At(s, t).a).sg, f) <==> f !in Ab(s, At(s, t).a).sg
  {
    var src := At(s, t).src;
    var sg := Ab(s, At(s, t).a).sg;
    assert CountOk(s, src);
    SourceEntry(s, t);
    MigratedEntries(s, t, f);
    ReplacedOnce(sg, FirstNaming(sg, src, 0).value, f);
  }

  /** With two entries naming the folio, the next migration of it follows the first and strands the other:
      the table keeps naming the page after it was given back. */
  lemma LaterEntryStranded(s: State, t: Task, f: FolioId, j: nat, k: nat)
    requires MoveIs(At(s, t), Isolated) && j < k < |Ab(s, At(s, t).a).sg|
    requires Ab(s, At(s, t).a).sg[j] == At(s, t).src == Ab(s, At(s, t).a).sg[k]
    requires At(s, t).src != f && Fo(s, At(s, t).src).count == Fo(s, At(s, t).src).nr + 2
    ensures MoveIs(At(Migrated(s, t, f), t), Done)
    ensures k < |Ab(Migrated(s, t, f), At(s, t).a).sg| && Ab(Migrated(s, t, f), At(s, t).a).sg[k] == At(s, t).src
  {
    MigratedEntries(s, t, f);
  }
}
