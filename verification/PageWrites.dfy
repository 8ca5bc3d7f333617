module PageWrites {
  /**
   No write is lost: over every run, a page that is up to date, dirty or not, holds the file's byte wherever nothing was
   stored through a mapping since the last write, and what was written stays in the file until something newer.
   */
  import opened PageCoherence

  /** A writer has changed the file at `x` and not come past the page over it. */
  predicate Owes(pc: Pc, x: int) {
    (pc.Updates? || pc.UpdateWants? || pc.UpdateHas?) && pc.lo <= x < pc.hi && pc.q * PAGE <= x
  }

  ghost predicate NobodyOwes(s: State, x: int) { forall t: Task :: !Owes(At(s, t), x) }

  /** Whether byte `j` of page `p` was stored to since the file last changed there by a write or a punch. */
  function StoredThen(stored: bool, step: Step, p: nat, j: nat): bool {
    match step
    case Store(q, i, _) => stored || (q == p && i == j)
    case Change(bytes) => stored && p * PAGE + j !in bytes
    case _ => stored
  }

  function Stored(run: seq<Turn>, p: nat, j: nat): bool {
    if run == [] then false else StoredThen(Stored(run[..|run| - 1], p, j), run[|run| - 1].step, p, j)
  }

  /** The page holds the file's byte, unless it was stored to or a writer is still on the way. */
  ghost predicate Tracks(s: State, p: nat, j: nat, stored: bool) {
    p in s.pages && s.pages[p].uptodate && j < |s.pages[p].data| && NobodyOwes(s, p * PAGE + j) && !stored ==>
      s.pages[p].data[j] == FileAt(s, p * PAGE + j)
  }

  // ----- one step -----

  /** If after the step nobody owes the byte, nobody else did before. */
  lemma OthersOweNot(s: State, t: Task, step: Step, x: int)
    requires NobodyOwes(Do(s, t, step), x)
    ensures forall u: Task :: u != t ==> !Owes(At(s, u), x)
    ensures !Owes(At(Do(s, t, step), t), x)
    ensures !Owes(At(s, t), x) ==> NobodyOwes(s, x)
  {
    forall u: Task | u != t ensures !Owes(At(s, u), x) {
      OthersStay(s, t, step, u);
      assert !Owes(At(Do(s, t, step), u), x);
    }
  }

  lemma PlainPays(s: State, t: Task, step: Step, x: nat)
    requires Can(s, t, step) && (Plain(step) || Caching(step)) && Owes(At(s, t), x)
    ensures Owes(At(Do(s, t, step), t), x) ||
            (At(s, t).Updates? && x < (At(s, t).q + 1) * PAGE && At(s, t).q !in s.pages)
  {
  }

  lemma PlainTracks(s: State, t: Task, step: Step, p: nat, j: nat, stored: bool)
    requires Inv(s) && Can(s, t, step) && Plain(step) && Tracks(s, p, j, stored)
    ensures Tracks(Do(s, t, step), p, j, stored)
  {
    var x := p * PAGE + j;
    assert PageOk(s, p);
    PlainStays(s, t, step);
    if NobodyOwes(Do(s, t, step), x) && p in s.pages && j < |s.pages[p].data| {
      OthersOweNot(s, t, step, x);
      if Owes(At(s, t), x) { PlainPays(s, t, step, x); }
    }
  }

  lemma CachingTracks(s: State, t: Task, step: Step, p: nat, j: nat, stored: bool)
    requires Inv(s) && Can(s, t, step) && Caching(step) && Tracks(s, p, j, stored)
    ensures Tracks(Do(s, t, step), p, j, StoredThen(stored, step, p, j))
  {
    assert PageOk(s, p) && BufOk(s, t);
    if NobodyOwes(Do(s, t, step), p * PAGE + j) { OthersOweNot(s, t, step, p * PAGE + j); }
  }

  lemma ChangeTracks(s: State, t: Task, step: Step, p: nat, j: nat, stored: bool)
    requires Inv(s) && Can(s, t, step) && step.Change? && Tracks(s, p, j, stored)
    ensures Tracks(Do(s, t, step), p, j, StoredThen(stored, step, p, j))
  {
    assert PageOk(s, p);
    if NobodyOwes(Do(s, t, step), p * PAGE + j) { OthersOweNot(s, t, step, p * PAGE + j); }
  }

  lemma CleanTracks(s: State, t: Task, step: Step, p: nat, j: nat, stored: bool)
    requires Inv(s) && Can(s, t, step) && step.Clean? && Tracks(s, p, j, stored)
    ensures Tracks(Do(s, t, step), p, j, stored)
  {
    assert PageOk(s, p);
    if At(s, t).PutClean? { assert PageOk(s, At(s, t).q); }
    if NobodyOwes(Do(s, t, step), p * PAGE + j) { OthersOweNot(s, t, step, p * PAGE + j); }
  }

  lemma FillTracks(s: State, t: Task, step: Step, p: nat, j: nat, stored: bool)
    requires Inv(s) && Can(s, t, step) && step.Fill? && Tracks(s, p, j, stored)
    ensures Tracks(Do(s, t, step), p, j, stored)
  {
    assert PageOk(s, p) && BufOk(s, t);
    if NobodyOwes(Do(s, t, step), p * PAGE + j) { OthersOweNot(s, t, step, p * PAGE + j); }
  }

  /** A byte the writer owed and no longer owes lies in the page it has just done. */
  lemma PaidInPage(s: State, t: Task, step: Step, p: nat, j: nat)
    requires At(s, t).UpdateHas? && (step.Update? || step.Drop?) && j < PAGE
    requires Owes(At(s, t), p * PAGE + j) && !Owes(At(Do(s, t, step), t), p * PAGE + j)
    ensures p == At(s, t).q
  {
    var pc := At(s, t);
    assert At(Do(s, t, step), t) == Updates(pc.lo, pc.hi, pc.kind, pc.q + 1);
    assert pc.q * PAGE <= p * PAGE + j < (pc.q + 1) * PAGE;
  }

  lemma UpdateTracks(s: State, t: Task, step: Step, p: nat, j: nat, stored: bool)
    requires Inv(s) && Can(s, t, step) && (step.Update? || step.Drop?) && Tracks(s, p, j, stored)
    ensures Tracks(Do(s, t, step), p, j, stored)
  {
    var s' := Do(s, t, step);
    var x, pc := p * PAGE + j, At(s, t);
    assert PageOk(s, p) && s'.file == s.file;
    if p in s'.pages && s'.pages[p].uptodate && j < |s'.pages[p].data| && NobodyOwes(s', x) && !stored {
      StepPages(s, t, step, p);
      assert PageOk(s', p);
      OthersOweNot(s, t, step, x);
      if Owes(pc, x) {
        PaidInPage(s, t, step, p, j);
        assert s'.pages[p].data == Merged(s, p, s.pages[p].data, pc.lo, pc.hi);
        assert pc.lo <= x < pc.hi;
      } else {
        assert NobodyOwes(s, x);
      }
      assert s'.pages[p].data[j] == FileAt(s, x);
    }
  }

  lemma StepTracks(s: State, t: Task, step: Step, p: nat, j: nat, stored: bool)
    requires Inv(s) && Can(s, t, step) && Tracks(s, p, j, stored)
    ensures Tracks(Do(s, t, step), p, j, StoredThen(stored, step, p, j))
  {
    if Plain(step) {
      PlainTracks(s, t, step, p, j, stored);
    } else if Caching(step) {
      CachingTracks(s, t, step, p, j, stored);
    } else if step.Change? {
      ChangeTracks(s, t, step, p, j, stored);
    } else if step.Clean? {
      CleanTracks(s, t, step, p, j, stored);
    } else if step.Fill? {
      FillTracks(s, t, step, p, j, stored);
    } else {
      UpdateTracks(s, t, step, p, j, stored);
    }
  }

  /** The file changes by a write or a punch, and by writeback of a byte that was stored. */
  lemma FileStays(s: State, t: Task, step: Step, p: nat, j: nat, stored: bool)
    requires Inv(s) && Can(s, t, step) && Tracks(s, p, j, stored) && !stored && j < PAGE
    requires PutOk(s, t) && (step.Change? ==> p * PAGE + j !in step.bytes)
    ensures FileAt(Do(s, t, step), p * PAGE + j) == FileAt(s, p * PAGE + j)
  {
    var x, pc := p * PAGE + j, At(s, t);
    if step.Clean? && pc.PutClean? && pc.q * PAGE <= x < (pc.q + 1) * PAGE && pc.q in s.pages {
      assert pc.q == p && PageOk(s, p);
      forall u: Task ensures !Owes(At(s, u), x) { assert Apart(s, t, u); }
    } else {
      NotTheFile(s, t, step, x);
    }
  }

  lemma NotTheFile(s: State, t: Task, step: Step, x: nat)
    requires Inv(s) && Can(s, t, step) && (step.Change? ==> x !in step.bytes)
    requires !(step.Clean? && At(s, t).PutClean? && At(s, t).q * PAGE <= x < (At(s, t).q + 1) * PAGE &&
               At(s, t).q in s.pages)
    ensures FileAt(Do(s, t, step), x) == FileAt(s, x)
  {
    if At(s, t).PutClean? { assert PageOk(s, At(s, t).q); }
  }

  /** The page being written back is up to date. */
  ghost predicate PutOk(s: State, t: Task) {
    At(s, t).PutClean? && At(s, t).q in s.pages ==> s.pages[At(s, t).q].uptodate
  }

  /** A page somebody has locked stays up to date. */
  lemma LockedStays(s: State, t: Task, step: Step, u: Task, q: nat)
    requires Inv(s) && Can(s, t, step) && u != t && HasPage(At(s, u), q) && q in s.pages && s.pages[q].uptodate
    ensures q in Do(s, t, step).pages ==> Do(s, t, step).pages[q].uptodate
  {
    assert Apart(s, t, u);
  }

  lemma StepPut(s: State, t: Task, step: Step, u: Task)
    requires Inv(s) && Can(s, t, step) && PutOk(s, u)
    ensures PutOk(Do(s, t, step), u)
  {
    if u != t {
      OthersStay(s, t, step, u);
      if At(s, u).PutClean? {
        assert HeldIn(s, u, At(s, u).q);
        LockedStays(s, t, step, u, At(s, u).q);
      }
    } else {
      OwnPut(s, t, step);
    }
  }

  lemma OwnPut(s: State, t: Task, step: Step)
    requires Inv(s) && Can(s, t, step) && PutOk(s, t)
    ensures PutOk(Do(s, t, step), t)
  {
    if At(s, t).PutHas? || At(s, t).PutClean? { assert PageOk(s, At(s, t).q); }
  }

  // ----- runs -----

  lemma {:induction false} RunTracks(run: seq<Turn>, p: nat, j: nat)
    requires Legal(run)
    ensures Tracks(Run(run), p, j, Stored(run, p, j))
  {
    if run != [] {
      var before := run[..|run| - 1];
      RunKeeps(before);
      RunTracks(before, p, j);
      StepTracks(Run(before), run[|run| - 1].task, run[|run| - 1].step, p, j, Stored(before, p, j));
    }
  }

  lemma {:induction false} RunPut(run: seq<Turn>, t: Task)
    requires Legal(run)
    ensures PutOk(Run(run), t)
  {
    if run != [] {
      var before := run[..|run| - 1];
      RunKeeps(before);
      RunPut(before, t);
      StepPut(Run(before), run[|run| - 1].task, run[|run| - 1].step, t);
    }
  }

  /** In every run, a page that is up to date, dirty or not, differs from the file only where it was stored to since the
      last write or punch there, once no writer is on its way to it. */
  lemma PageIsFile(run: seq<Turn>, p: nat, j: nat)
    requires Legal(run) && p in Run(run).pages && Run(run).pages[p].uptodate && j < PAGE
    requires forall t: Task :: !Owes(At(Run(run), t), p * PAGE + j)
    ensures |Run(run).pages[p].data| == PAGE
    ensures Run(run).pages[p].data[j] == FileAt(Run(run), p * PAGE + j) || Stored(run, p, j)
  {
    RunKeeps(run);
    assert PageOk(Run(run), p);
    RunTracks(run, p, j);
  }

  /** Nobody writes, punches or stores to the byte. */
  ghost predicate LeftAlone(more: seq<Turn>, p: nat, j: nat) {
    forall k :: 0 <= k < |more| ==>
      match more[k].step
      case Change(bytes) => p * PAGE + j !in bytes
      case Store(q, i, _) => q != p || i != j
      case _ => true
  }

  lemma LeftAloneStored(run: seq<Turn>, turn: Turn, p: nat, j: nat)
    requires LeftAlone([turn], p, j)
    ensures Stored(run + [turn], p, j) == Stored(run, p, j)
  {
    assert (run + [turn])[..|run|] == run && [turn][0] == turn;
  }

  /** Whatever else happens, the file keeps a byte that nothing newer replaces. */
  lemma {:induction false} FileKeeps(run: seq<Turn>, more: seq<Turn>, p: nat, j: nat)
    requires Legal(run + more) && !Stored(run, p, j) && j < PAGE && LeftAlone(more, p, j)
    ensures FileAt(Run(run + more), p * PAGE + j) == FileAt(Run(run), p * PAGE + j) && !Stored(run + more, p, j)
    decreases |more|
  {
    if more == [] {
      assert run + more == run;
    } else {
      var n := |more| - 1;
      var before, turn := run + more[..n], more[n];
      assert run + more == before + [turn] && (run + more)[..|run| + n] == before;
      FileKeeps(run, more[..n], p, j);
      LeftAloneStored(before, turn, p, j);
      RunKeeps(before);
      RunTracks(before, p, j);
      RunPut(before, turn.task);
      FileStays(Run(before), turn.task, turn.step, p, j, false);
    }
  }

  /** What a write or a punch put into the file is there until something newer is written, punched or stored over it,
      and every page that is up to date has it as soon as the writers have come past. */
  lemma WriteStays(run: seq<Turn>, t: Task, bytes: map<int, Byte>, more: seq<Turn>, p: nat, j: nat)
    requires Legal(run + [Turn(t, Change(bytes))] + more) && p * PAGE + j in bytes && j < PAGE && LeftAlone(more, p, j)
    ensures var s := Run(run + [Turn(t, Change(bytes))] + more);
            && FileAt(s, p * PAGE + j) == bytes[p * PAGE + j]
            && (p in s.pages && s.pages[p].uptodate && NobodyOwes(s, p * PAGE + j) ==>
                  |s.pages[p].data| == PAGE && s.pages[p].data[j] == bytes[p * PAGE + j])
  {
    var wrote := run + [Turn(t, Change(bytes))];
    var all := wrote + more;
    Shorter(wrote, more);
    assert wrote[..|run|] == run && wrote[|run|] == Turn(t, Change(bytes));
    assert At(Run(run), t).WriteHas?;
    assert FileAt(Run(wrote), p * PAGE + j) == bytes[p * PAGE + j] && !Stored(wrote, p, j);
    FileKeeps(wrote, more, p, j);
    var s := Run(all);
    if p in s.pages && s.pages[p].uptodate && NobodyOwes(s, p * PAGE + j) { PageIsFile(all, p, j); }
  }

  lemma {:induction false} Shorter(run: seq<Turn>, more: seq<Turn>)
    requires Legal(run + more)
    ensures Legal(run)
    decreases |more|
  {
    if more == [] {
      assert run + more == run;
    } else {
      assert (run + more)[..|run| + |more| - 1] == run + more[..|more| - 1];
      Shorter(run, more[..|more| - 1]);
    }
  }

  // ----- what fillers and writeback get done -----

  /** The page has the file's bytes and is up to date. */
  ghost predicate HasFile(s: State, p: nat) {
    && p in s.pages && s.pages[p].uptodate && |s.pages[p].data| == PAGE
    && forall j: nat :: j < PAGE ==> s.pages[p].data[j] == FileAt(s, p * PAGE + j)
  }

  /** A fault that gets the range fills its page from the file, by its own next steps. */
  lemma FaultFills(s: State, t: Task, q: nat)
    requires Inv(s) && At(s, t) == FaultNew(q) && RangeFree(s, t, PageRange(q, q + 1, false))
    ensures Can(s, t, TryRange)
    ensures var s1 := Do(s, t, TryRange);
            var s2 := Do(s1, t, Read);
            var s3 := Do(s2, t, Fill);
            Can(s1, t, Read) && Can(s2, t, Fill) && At(s3, t).Rest? && HasFile(s3, q)
  {
    assert HeldIn(s, t, q);
    var s1 := Do(s, t, TryRange);
    FilePageIs(s1, q);
  }

  /** So does readahead with each page of the batch in turn. */
  lemma BatchFillsNext(s: State, t: Task, b: nat, e: nat, k: nat)
    requires Inv(s) && At(s, t) == BatchFills(b, e, k) && k < e
    ensures Can(s, t, Read)
    ensures var s1 := Do(s, t, Read);
            var s2 := Do(s1, t, Fill);
            Can(s1, t, Fill) && At(s2, t) == BatchFills(b, e, k + 1) && HasFile(s2, k)
  {
    assert HeldIn(s, t, k);
    FilePageIs(s, k);
  }

  /** Writeback of a dirty page puts the page's bytes into the file, and the page is clean. */
  lemma WritebackLands(s: State, t: Task, q: nat)
    requires Inv(s) && At(s, t) == PutHas(q) && q in s.pages && s.pages[q].dirty
    ensures Can(s, t, Clean)
    ensures var s1 := Do(s, t, Clean);
            var s2 := Do(s1, t, Clean);
            Can(s1, t, Clean) && At(s2, t).Rest? && HasFile(s2, q) && s2.pages[q] == s.pages[q].(dirty := false)
  {
    assert PageOk(s, q);
  }
}
