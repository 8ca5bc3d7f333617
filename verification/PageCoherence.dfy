module PageCoherence {
  /**
   The page cache of a file against its contents: zfs_write and hole punching with update_pages and
   zfs_zero_partial_page as patched by update-pages-unfilled.patch, faults (zfs_getpage), readahead (zfs_getpages of
   zpl-readahead-batch.patch), stores through a mapping, writeback and eviction, in any interleaving.

   What a task has locked follows from where it stands: `Pages` are the page locks, `RangeOf` is its part of the
   file's range lock.
   */

  type Task = nat
  type Byte = int

  const PAGE: nat := 4096

  datatype Page = Page(uptodate: bool, dirty: bool, data: seq<Byte>)

  datatype Kind = Write | Punch

  /** A writer is zfs_write or a hole punch of the bytes from `lo` to `hi`, `q` the page it has come to. A batch is the
      pages from `b` to `e`, filled up to `k`.

      - `WriteWants`, `WriteHas`: waiting for the range lock; holding it, the file not changed yet
      - `Updates`, `UpdateWants`, `UpdateHas`: update_pages before, waiting for and holding the lock of page `q`
      - `FaultNew`, `FaultWants`, `FaultRange`, `FaultHas`: zfs_getpage with its page locked and no range; waiting for
        the range with the page unlocked; holding the range and waiting for the page; holding both
      - `BatchNew`, `BatchFills`: zfs_getpages with its pages locked; holding the range too
      - `BatchWants`: readahead as it was before the patch, one zfs_getpage after the other: the page it has come to
        unlocked, waiting for its range with the rest of the batch locked
      - `FaultReady`, `BatchReady`: the page's bytes read from the file and about to be copied
      - `PutWants`, `PutRange`, `PutHas`, `PutClean`: writeback of page `q`, likewise, and once the dirty bit is
        cleared */
  datatype Pc =
    | Rest
    | WriteWants(lo: nat, hi: nat, kind: Kind) | WriteHas(lo: nat, hi: nat, kind: Kind)
    | Updates(lo: nat, hi: nat, kind: Kind, q: nat)
    | UpdateWants(lo: nat, hi: nat, kind: Kind, q: nat)
    | UpdateHas(lo: nat, hi: nat, kind: Kind, q: nat)
    | FaultNew(q: nat) | FaultWants(q: nat) | FaultRange(q: nat) | FaultHas(q: nat)
    | FaultReady(q: nat, buf: seq<Byte>)
    | BatchNew(b: nat, e: nat) | BatchFills(b: nat, e: nat, k: nat) | BatchReady(b: nat, e: nat, k: nat, buf: seq<Byte>)
    | BatchWants(b: nat, e: nat)
    | PutWants(q: nat) | PutRange(q: nat) | PutHas(q: nat) | PutClean(q: nat)

  /** The file is zero wherever nothing was written; pages that are not cached are not in the map. */
  datatype State = State(file: map<int, Byte>, pages: map<nat, Page>, pcs: map<Task, Pc>)

  const INIT := State(map[], map[], map[])

  function At(s: State, t: Task): Pc { if t in s.pcs then s.pcs[t] else Rest }

  function FileAt(s: State, x: nat): Byte { if x in s.file then s.file[x] else 0 }

  // ----- locks -----

  datatype Range = NoRange | Range(lo: nat, hi: nat, writer: bool)

  function PageRange(b: nat, e: nat, writer: bool): Range { Range(b * PAGE, e * PAGE, writer) }

  function RangeOf(pc: Pc): Range {
    match pc
    case WriteHas(lo, hi, _) => Range(lo, hi, true)
    case Updates(lo, hi, _, _) => Range(lo, hi, true)
    case UpdateWants(lo, hi, _, _) => Range(lo, hi, true)
    case UpdateHas(lo, hi, _, _) => Range(lo, hi, true)
    case FaultRange(q) => PageRange(q, q + 1, false)
    case FaultHas(q) => PageRange(q, q + 1, false)
    case FaultReady(q, _) => PageRange(q, q + 1, false)
    case BatchFills(b, e, _) => PageRange(b, e, false)
    case BatchReady(b, e, _, _) => PageRange(b, e, false)
    case PutRange(q) => PageRange(q, q + 1, true)
    case PutHas(q) => PageRange(q, q + 1, true)
    case PutClean(q) => PageRange(q, q + 1, true)
    case _ => NoRange
  }

  predicate HasPage(pc: Pc, p: nat) {
    match pc
    case UpdateHas(_, _, _, q) => p == q
    case FaultNew(q) => p == q
    case FaultHas(q) => p == q
    case BatchNew(b, e) => b <= p < e
    case FaultReady(q, _) => p == q
    case BatchFills(_, e, k) => k <= p < e
    case BatchReady(_, e, k, _) => k <= p < e
    case BatchWants(b, e) => b < p < e
    case PutHas(q) => p == q
    case PutClean(q) => p == q
    case _ => false
  }

  /** Two ranges of which one is a writer's and which share a byte. */
  predicate Conflict(r: Range, q: Range) {
    r.Range? && q.Range? && (r.writer || q.writer) && r.lo < q.hi && q.lo < r.hi
  }

  ghost predicate RangeFree(s: State, t: Task, r: Range) {
    forall u: Task :: u != t ==> !Conflict(r, RangeOf(At(s, u)))
  }

  ghost predicate PageFree(s: State, t: Task, p: nat) { forall u: Task :: u != t ==> !HasPage(At(s, u), p) }

  // ----- steps -----

  datatype Step =
    | Begin(now: Pc)                 // a write, punch or writeback starts
    | Enter                          // the range waited for is free
    | Change(bytes: map<int, Byte>)  // the DMU takes the write, or frees the hole
    | Look | Lock | Update | Drop
    | FaultPage(p: nat, junk: seq<Byte>) | TryRange | Unlock | Read | Fill
    | AddBatch(b: nat, e: nat, junk: seq<Byte>) | GiveUp(keep: bool)
    | Wait                           // only before the patch: the batch waits for the range of its page
    | Clean | Store(p: nat, j: nat, v: Byte) | Evict(p: nat)

  predicate Starts(pc: Pc) { (pc.WriteWants? && pc.lo < pc.hi) || pc.PutWants? }

  /** The program point once the range lock waited for is held. */
  function Entered(pc: Pc): Pc {
    match pc
    case WriteWants(lo, hi, k) => WriteHas(lo, hi, k)
    case FaultWants(q) => FaultRange(q)
    case PutWants(q) => PutRange(q)
    case _ => pc
  }

  /** The program point once the page lock waited for is held. */
  function Locked(pc: Pc): Pc {
    match pc
    case UpdateWants(lo, hi, k, q) => UpdateHas(lo, hi, k, q)
    case FaultRange(q) => FaultHas(q)
    case PutRange(q) => PutHas(q)
    case _ => pc
  }

  /** The page is gone by the time its lock is free. */
  function Missed(pc: Pc): Pc {
    match pc
    case UpdateWants(lo, hi, k, q) => Updates(lo, hi, k, q)
    case _ => Rest
  }

  predicate AwaitsRange(pc: Pc) { pc.WriteWants? || pc.FaultWants? || pc.PutWants? }

  predicate AwaitsPage(pc: Pc) { pc.UpdateWants? || pc.FaultRange? || pc.PutRange? }

  ghost predicate Can(s: State, t: Task, step: Step) {
    var pc := At(s, t);
    match step
    case Begin(now) => pc.Rest? && Starts(now)
    case Enter => AwaitsRange(pc) && RangeFree(s, t, RangeOf(Entered(pc)))
    case Change(bytes) =>
      && pc.WriteHas? && (forall x :: x in bytes <==> pc.lo <= x < pc.hi)
      && (pc.kind.Punch? ==> forall x :: x in bytes ==> bytes[x] == 0)
    case Look => pc.Updates?
    case Lock => AwaitsPage(pc) && PageFree(s, t, pc.q)
    case Update => pc.UpdateHas?
    case Drop => pc.UpdateHas? && pc.kind.Punch? && pc.lo <= pc.q * PAGE && (pc.q + 1) * PAGE <= pc.hi
    case FaultPage(p, junk) =>
      pc.Rest? && |junk| == PAGE && PageFree(s, t, p) && (p in s.pages ==> !s.pages[p].uptodate)
    case TryRange =>
      (pc.FaultNew? && RangeFree(s, t, PageRange(pc.q, pc.q + 1, false))) ||
      (pc.BatchNew? && RangeFree(s, t, PageRange(pc.b, pc.e, false)))
    case Unlock => pc.FaultNew?
    case Read => pc.FaultHas? || (pc.BatchFills? && pc.k < pc.e)
    case Fill => pc.FaultReady? || pc.BatchReady? || (pc.BatchFills? && pc.k >= pc.e)
    case AddBatch(b, e, junk) => pc.Rest? && b < e && |junk| == PAGE && forall p :: b <= p < e ==> p !in s.pages
    case GiveUp(keep) => pc.BatchNew? || pc.BatchFills?
    case Wait => false
    case Clean => pc.PutHas? || pc.PutClean?
    case Store(p, j, v) => p in s.pages && s.pages[p].uptodate && j < |s.pages[p].data|
    case Evict(p) => p in s.pages && !s.pages[p].dirty && PageFree(s, t, p) && !HasPage(pc, p)
  }

  function Go(s: State, t: Task, pc: Pc): State { s.(pcs := s.pcs[t := pc]) }

  /** The file's bytes in the range from `lo` to `hi`, the page's own elsewhere. */
  function Merged(s: State, p: nat, data: seq<Byte>, lo: nat, hi: nat): seq<Byte> {
    seq(|data|, j requires 0 <= j < |data| => if lo <= p * PAGE + j < hi then FileAt(s, p * PAGE + j) else data[j])
  }

  function FilePage(s: State, p: nat): seq<Byte> { seq(PAGE, j requires 0 <= j => FileAt(s, p * PAGE + j)) }

  /** The cache with unfilled pages from `b` to `e`. */
  function Added(pages: map<nat, Page>, b: nat, e: nat, junk: seq<Byte>): (r: map<nat, Page>)
    ensures forall p :: p in r <==> p in pages || b <= p < e
    ensures forall p :: p in r ==> r[p] == if b <= p < e then Page(false, false, junk) else pages[p]
    decreases e - b
  {
    if b >= e then pages else Added(pages, b + 1, e, junk)[b := Page(false, false, junk)]
  }

  /** The cache without the pages from `k` to `e`. */
  function Removed(pages: map<nat, Page>, k: nat, e: nat): (r: map<nat, Page>)
    ensures forall p :: p in r <==> p in pages && !(k <= p < e)
    ensures forall p :: p in r ==> r[p] == pages[p]
    decreases e - k
  {
    if k >= e then pages else Removed(pages, k + 1, e) - {k}
  }

  /** The file with `data` written at `x`. */
  function Written(file: map<int, Byte>, x: int, data: seq<Byte>): (r: map<int, Byte>)
    ensures forall y :: y in r <==> y in file || x <= y < x + |data|
    ensures forall y :: y in r ==> r[y] == if x <= y < x + |data| then data[y - x] else file[y]
  {
    if data == [] then file else Written(file, x, data[..|data| - 1])[x + |data| - 1 := data[|data| - 1]]
  }

  function Do(s: State, t: Task, step: Step): State {
    var pc := At(s, t);
    match step
    case Begin(now) => Go(s, t, now)
    case Enter => Go(s, t, Entered(pc))
    case Change(bytes) =>
      if pc.WriteHas? then Go(s.(file := s.file + bytes), t, Updates(pc.lo, pc.hi, pc.kind, pc.lo / PAGE)) else s
    case Look =>
      if !pc.Updates? then s
      else if pc.q * PAGE >= pc.hi then Go(s, t, Rest)
      else if pc.q !in s.pages then Go(s, t, Updates(pc.lo, pc.hi, pc.kind, pc.q + 1))
      else Go(s, t, UpdateWants(pc.lo, pc.hi, pc.kind, pc.q))
    case Lock => Go(s, t, if !AwaitsPage(pc) || pc.q in s.pages then Locked(pc) else Missed(pc))
    case Update => if pc.UpdateHas? then DoUpdate(s, t, pc.lo, pc.hi, pc.kind, pc.q) else s
    case Drop =>
      if pc.UpdateHas? then Go(s.(pages := s.pages - {pc.q}), t, Updates(pc.lo, pc.hi, pc.kind, pc.q + 1)) else s
    case FaultPage(p, junk) =>
      Go(if p in s.pages then s else s.(pages := s.pages[p := Page(false, false, junk)]), t, FaultNew(p))
    case TryRange =>
      if pc.FaultNew? then Go(s, t, FaultHas(pc.q))
      else if pc.BatchNew? then Go(s, t, BatchFills(pc.b, pc.e, pc.b)) else s
    case Unlock => if pc.FaultNew? then Go(s, t, FaultWants(pc.q)) else s
    case Read =>
      if pc.FaultHas? then Go(s, t, FaultReady(pc.q, FilePage(s, pc.q)))
      else if pc.BatchFills? then Go(s, t, BatchReady(pc.b, pc.e, pc.k, FilePage(s, pc.k))) else s
    case Fill => DoFill(s, t, pc)
    case AddBatch(b, e, junk) =>
      Go(s.(pages := Added(s.pages, b, e, junk)), t, BatchNew(b, e))
    case GiveUp(keep) =>
      if pc.BatchNew? then LeaveBatch(s, t, pc.b, pc.e, keep)
      else if pc.BatchFills? then LeaveBatch(s, t, pc.k, pc.e, keep) else s
    case Wait => if pc.BatchNew? then Go(s, t, BatchWants(pc.b, pc.e)) else s
    case Clean => DoClean(s, t, pc)
    case Store(p, j, v) =>
      if p in s.pages && j < |s.pages[p].data| then
        var x := s.pages[p];
        s.(pages := s.pages[p := Page(x.uptodate, true, x.data[j := v])])
      else s
    case Evict(p) => s.(pages := s.pages - {p})
  }

  /** One page of update_pages or zfs_zero_partial_page: a page nobody has filled is left to its filler. */
  function DoUpdate(s: State, t: Task, lo: nat, hi: nat, kind: Kind, q: nat): State {
    var on := Updates(lo, hi, kind, q + 1);
    if q !in s.pages || (!s.pages[q].uptodate && !s.pages[q].dirty) then Go(s, t, on)
    else
      var x := s.pages[q];
      Go(s.(pages := s.pages[q := Page(true, x.dirty, Merged(s, q, x.data, lo, hi))]), t, on)
  }

  /** zfs_fillpage, or one page of the batch; the page is unlocked. A page that has left the cache is not put back. */
  function DoFill(s: State, t: Task, pc: Pc): State {
    if pc.FaultReady? then Go(Filled(s, pc.q, pc.buf), t, Rest)
    else if pc.BatchReady? then Go(Filled(s, pc.k, pc.buf), t, BatchFills(pc.b, pc.e, pc.k + 1))
    else Go(s, t, Rest)
  }

  function Filled(s: State, p: nat, buf: seq<Byte>): State {
    if p in s.pages then s.(pages := s.pages[p := Page(true, s.pages[p].dirty, buf)]) else s
  }

  /** The pages not taken: dropped by read_pages, or before 6.14 kept as they are. */
  function LeaveBatch(s: State, t: Task, k: nat, e: nat, keep: bool): State {
    Go(if keep then s else s.(pages := Removed(s.pages, k, e)), t, Rest)
  }

  /** Writeback: the dirty bit is cleared first, then the page's bytes go to the file. */
  function DoClean(s: State, t: Task, pc: Pc): State {
    if pc.PutHas? then
      if pc.q in s.pages && s.pages[pc.q].dirty then
        Go(s.(pages := s.pages[pc.q := s.pages[pc.q].(dirty := false)]), t, PutClean(pc.q))
      else Go(s, t, Rest)
    else if pc.PutClean? then
      if pc.q in s.pages then
        var d := s.pages[pc.q].data;
        Go(s.(file := Written(s.file, pc.q * PAGE, d)), t, Rest)
      else Go(s, t, Rest)
    else s
  }

  // ----- the invariant -----

  /** A byte of the file that changed while the page over it has not been brought up to date yet. */
  predicate Stale(pc: Pc, x: int) {
    match pc
    case Updates(lo, hi, _, q) => lo <= x < hi && q * PAGE <= x
    case UpdateWants(lo, hi, _, q) => lo <= x < hi && q * PAGE <= x
    case UpdateHas(lo, hi, _, q) => lo <= x < hi && q * PAGE <= x
    case PutClean(q) => q * PAGE <= x < (q + 1) * PAGE
    case _ => false
  }

  ghost predicate NobodyStale(s: State, x: int) { forall t: Task :: !Stale(At(s, t), x) }

  /** A clean up-to-date page holds the file's byte. */
  ghost predicate ByteOk(s: State, p: nat, j: nat) {
    p in s.pages && s.pages[p].uptodate && !s.pages[p].dirty && j < |s.pages[p].data| &&
      NobodyStale(s, p * PAGE + j) ==>
      s.pages[p].data[j] == FileAt(s, p * PAGE + j)
  }

  ghost predicate PageOk(s: State, p: nat) {
    p in s.pages ==> |s.pages[p].data| == PAGE && (s.pages[p].dirty ==> s.pages[p].uptodate)
  }

  ghost predicate BufIs(s: State, p: nat, buf: seq<Byte>) {
    |buf| == PAGE && forall j :: 0 <= j < PAGE ==> buf[j] == FileAt(s, p * PAGE + j)
  }

  ghost predicate BufOk(s: State, t: Task) {
    match At(s, t)
    case FaultReady(q, buf) => BufIs(s, q, buf)
    case BatchReady(b, e, k, buf) => b <= k < e && BufIs(s, k, buf)
    case BatchFills(b, e, k) => b <= k
    case BatchWants(_, _) => false
    case _ => true
  }

  ghost predicate HeldIn(s: State, t: Task, p: nat) { HasPage(At(s, t), p) ==> p in s.pages }

  ghost predicate Apart(s: State, t: Task, u: Task) {
    t != u ==>
      !Conflict(RangeOf(At(s, t)), RangeOf(At(s, u))) &&
        forall p: nat :: !(HasPage(At(s, t), p) && HasPage(At(s, u), p))
  }

  ghost predicate Inv(s: State) {
    && (forall p: nat, j: nat :: ByteOk(s, p, j))
    && (forall p: nat :: PageOk(s, p))
    && (forall t: Task :: BufOk(s, t))
    && (forall t: Task, p: nat :: HeldIn(s, t, p))
    && (forall t: Task, u: Task :: Apart(s, t, u))
  }

  lemma StepPages(s: State, t: Task, step: Step, p: nat)
    requires Inv(s) && Can(s, t, step)
    ensures PageOk(Do(s, t, step), p)
  {
    assert PageOk(s, p) && BufOk(s, t);
    var pc := At(s, t);
    if pc.UpdateHas? || pc.PutHas? || pc.FaultReady? { assert PageOk(s, pc.q); }
    if pc.BatchReady? { assert PageOk(s, pc.k); }
  }

  lemma OthersStay(s: State, t: Task, step: Step, u: Task)
    requires u != t
    ensures At(Do(s, t, step), u) == At(s, u)
  {
  }

  lemma RangeTaken(s: State, t: Task, step: Step, u: Task)
    requires Inv(s) && Can(s, t, step) && u != t
    ensures !Conflict(RangeOf(At(Do(s, t, step), t)), RangeOf(At(s, u)))
  {
    assert Apart(s, t, u) && BufOk(s, t);
  }

  lemma PageTaken(s: State, t: Task, step: Step, u: Task, p: nat)
    requires Inv(s) && Can(s, t, step) && u != t && HasPage(At(Do(s, t, step), t), p)
    ensures !HasPage(At(s, u), p)
  {
    assert Apart(s, t, u) && BufOk(s, t) && HeldIn(s, u, p);
  }

  lemma OtherHeldIn(s: State, t: Task, step: Step, u: Task, p: nat)
    requires Inv(s) && Can(s, t, step) && u != t
    ensures HeldIn(Do(s, t, step), u, p)
  {
    OthersStay(s, t, step, u);
    assert HeldIn(s, u, p) && Apart(s, t, u) && BufOk(s, t);
  }

  lemma OwnHeldIn(s: State, t: Task, step: Step, p: nat)
    requires Inv(s) && Can(s, t, step)
    ensures HeldIn(Do(s, t, step), t, p)
  {
    assert HeldIn(s, t, p) && BufOk(s, t);
  }

  lemma StepHeldIn(s: State, t: Task, step: Step, u: Task, p: nat)
    requires Inv(s) && Can(s, t, step)
    ensures HeldIn(Do(s, t, step), u, p)
  {
    if u == t { OwnHeldIn(s, t, step, p); } else { OtherHeldIn(s, t, step, u, p); }
  }

  /** The file changes only under a writer's range. */
  lemma FileChanges(s: State, t: Task, step: Step, x: nat)
    requires Inv(s) && Can(s, t, step) && FileAt(Do(s, t, step), x) != FileAt(s, x)
    ensures var r := RangeOf(At(s, t)); r.Range? && r.writer && r.lo <= x < r.hi
  {
    if At(s, t).PutClean? { assert PageOk(s, At(s, t).q); }
  }

  lemma ReadStays(s: State, t: Task, step: Step, u: Task, p: nat, buf: seq<Byte>)
    requires Inv(s) && Can(s, t, step) && u != t && BufIs(s, p, buf)
    requires var r := RangeOf(At(s, u)); r.Range? && r.lo <= p * PAGE && (p + 1) * PAGE <= r.hi
    ensures BufIs(Do(s, t, step), p, buf)
  {
    var s' := Do(s, t, step);
    assert Apart(s, t, u);
    forall j | 0 <= j < PAGE ensures buf[j] == FileAt(s', p * PAGE + j) {
      if FileAt(s', p * PAGE + j) != FileAt(s, p * PAGE + j) { FileChanges(s, t, step, p * PAGE + j); }
    }
  }

  /** What a filler has read stays what the file holds until it has copied it: writers are kept out of its range. */
  lemma OtherBuf(s: State, t: Task, step: Step, u: Task)
    requires Inv(s) && Can(s, t, step) && u != t
    ensures BufOk(Do(s, t, step), u)
  {
    OthersStay(s, t, step, u);
    assert BufOk(s, u);
    var pc := At(s, u);
    if pc.FaultReady? { ReadStays(s, t, step, u, pc.q, pc.buf); }
    if pc.BatchReady? { ReadStays(s, t, step, u, pc.k, pc.buf); }
  }

  lemma FilePageIs(s: State, p: nat)
    ensures BufIs(s, p, FilePage(s, p))
  {
    var d := FilePage(s, p);
    forall j | 0 <= j < PAGE ensures d[j] == FileAt(s, p * PAGE + j) { }
  }

  lemma OwnBuf(s: State, t: Task, step: Step)
    requires Inv(s) && Can(s, t, step)
    ensures BufOk(Do(s, t, step), t)
  {
    var pc := At(s, t);
    assert BufOk(s, t);
    if step.Read? {
      FilePageIs(s, if pc.FaultHas? then pc.q else pc.k);
      assert Do(s, t, step).file == s.file;
    }
  }

  /** If after the step nobody owes the page this byte, nobody else did before. */
  lemma OthersOwe(s: State, t: Task, step: Step, x: int)
    requires NobodyStale(Do(s, t, step), x)
    ensures forall u: Task :: u != t ==> !Stale(At(s, u), x)
    ensures !Stale(At(Do(s, t, step), t), x)
  {
    forall u: Task | u != t ensures !Stale(At(s, u), x) {
      OthersStay(s, t, step, u);
      assert !Stale(At(Do(s, t, step), u), x);
    }
  }

  /** Steps that change neither the file nor a page. */
  predicate Plain(step: Step) {
    step.Begin? || step.Enter? || step.Look? || step.Lock? || step.TryRange? || step.Unlock? || step.Read? || step.Wait?
  }

  /** Steps that bring pages in, drop them, or dirty one. */
  predicate Caching(step: Step) { step.Evict? || step.Store? || step.AddBatch? || step.GiveUp? || step.FaultPage? }

  lemma PlainStays(s: State, t: Task, step: Step)
    requires Plain(step)
    ensures Do(s, t, step).file == s.file && Do(s, t, step).pages == s.pages
  {
  }

  /** What the task owes before such a step it owes after it. */
  lemma PlainOwes(s: State, t: Task, step: Step, x: nat)
    requires Can(s, t, step) && (Plain(step) || Caching(step)) && Stale(At(s, t), x)
    ensures Stale(At(Do(s, t, step), t), x) || At(s, t).Updates?
    ensures At(s, t).Updates? ==>
              Stale(At(Do(s, t, step), t), x) || (x < (At(s, t).q + 1) * PAGE && At(s, t).q !in s.pages)
  {
  }

  lemma PlainByte(s: State, t: Task, step: Step, p: nat, j: nat)
    requires Inv(s) && Can(s, t, step) && Plain(step)
    ensures ByteOk(Do(s, t, step), p, j)
  {
    var s' := Do(s, t, step);
    var x := p * PAGE + j;
    assert ByteOk(s, p, j) && PageOk(s, p);
    PlainStays(s, t, step);
    if NobodyStale(s', x) && p in s.pages && j < |s.pages[p].data| {
      OthersOwe(s, t, step, x);
      if Stale(At(s, t), x) { PlainOwes(s, t, step, x); } else { assert NobodyStale(s, x); }
    }
  }

  lemma CachingByte(s: State, t: Task, step: Step, p: nat, j: nat)
    requires Inv(s) && Can(s, t, step) && Caching(step)
    ensures ByteOk(Do(s, t, step), p, j)
  {
    var s' := Do(s, t, step);
    assert ByteOk(s, p, j) && PageOk(s, p) && BufOk(s, t);
    if NobodyStale(s', p * PAGE + j) { OthersOwe(s, t, step, p * PAGE + j); }
  }

  lemma WriteByte(s: State, t: Task, step: Step, p: nat, j: nat)
    requires Inv(s) && Can(s, t, step) && step.Change?
    ensures ByteOk(Do(s, t, step), p, j)
  {
    var s' := Do(s, t, step);
    assert ByteOk(s, p, j) && PageOk(s, p);
    if NobodyStale(s', p * PAGE + j) { OthersOwe(s, t, step, p * PAGE + j); }
  }

  lemma CleanByte(s: State, t: Task, step: Step, p: nat, j: nat)
    requires Inv(s) && Can(s, t, step) && step.Clean?
    ensures ByteOk(Do(s, t, step), p, j)
  {
    var s' := Do(s, t, step);
    assert ByteOk(s, p, j) && PageOk(s, p);
    if At(s, t).PutClean? { assert PageOk(s, At(s, t).q); }
    if NobodyStale(s', p * PAGE + j) { OthersOwe(s, t, step, p * PAGE + j); }
  }

  /** A byte the writer owed before the step and no longer owes lies in the page it has just done. */
  lemma OwedInPage(s: State, t: Task, step: Step, p: nat, j: nat)
    requires At(s, t).UpdateHas? && (step.Update? || step.Drop?) && j < PAGE
    requires Stale(At(s, t), p * PAGE + j) && !Stale(At(Do(s, t, step), t), p * PAGE + j)
    ensures p == At(s, t).q
  {
    var pc := At(s, t);
    assert At(Do(s, t, step), t) == Updates(pc.lo, pc.hi, pc.kind, pc.q + 1);
    assert pc.q * PAGE <= p * PAGE + j < (pc.q + 1) * PAGE;
  }

  lemma UpdateByte(s: State, t: Task, step: Step, p: nat, j: nat)
    requires Inv(s) && Can(s, t, step) && (step.Update? || step.Drop?)
    ensures ByteOk(Do(s, t, step), p, j)
  {
    var s' := Do(s, t, step);
    var x, pc := p * PAGE + j, At(s, t);
    assert ByteOk(s, p, j) && PageOk(s, p) && s'.file == s.file;
    if p in s'.pages && s'.pages[p].uptodate && !s'.pages[p].dirty && j < |s'.pages[p].data| && NobodyStale(s', x) {
      StepPages(s, t, step, p);
      assert PageOk(s', p);
      OthersOwe(s, t, step, x);
      if Stale(pc, x) {
        OwedInPage(s, t, step, p, j);
        assert s'.pages[p].data == Merged(s, p, s.pages[p].data, pc.lo, pc.hi);
        assert pc.lo <= x < pc.hi;
      } else {
        assert NobodyStale(s, x);
      }
      assert s'.pages[p].data[j] == FileAt(s, x);
    }
  }

  lemma FillByte(s: State, t: Task, step: Step, p: nat, j: nat)
    requires Inv(s) && Can(s, t, step) && step.Fill?
    ensures ByteOk(Do(s, t, step), p, j)
  {
    var s' := Do(s, t, step);
    assert ByteOk(s, p, j) && PageOk(s, p) && BufOk(s, t);
    if NobodyStale(s', p * PAGE + j) {
      OthersOwe(s, t, step, p * PAGE + j);
      assert !Stale(At(s, t), p * PAGE + j);
      assert NobodyStale(s, p * PAGE + j);
    }
  }

  lemma CopyByte(s: State, t: Task, step: Step, p: nat, j: nat)
    requires Inv(s) && Can(s, t, step) && (step.Update? || step.Drop? || step.Fill?)
    ensures ByteOk(Do(s, t, step), p, j)
  {
    if step.Fill? { FillByte(s, t, step, p, j); } else { UpdateByte(s, t, step, p, j); }
  }

  lemma StepKeeps(s: State, t: Task, step: Step)
    requires Inv(s) && Can(s, t, step)
    ensures Inv(Do(s, t, step))
  {
    var s' := Do(s, t, step);
    forall p: nat, j: nat ensures ByteOk(s', p, j) {
      if Plain(step) {
        PlainByte(s, t, step, p, j);
      } else if Caching(step) {
        CachingByte(s, t, step, p, j);
      } else if step.Change? {
        WriteByte(s, t, step, p, j);
      } else if step.Clean? {
        CleanByte(s, t, step, p, j);
      } else {
        CopyByte(s, t, step, p, j);
      }
    }
    forall p: nat ensures PageOk(s', p) { StepPages(s, t, step, p); }
    forall u: Task ensures BufOk(s', u) { if u == t { OwnBuf(s, t, step); } else { OtherBuf(s, t, step, u); } }
    forall u: Task, p: nat ensures HeldIn(s', u, p) { StepHeldIn(s, t, step, u, p); }
    StepApart(s, t, step);
  }

  lemma StepApart(s: State, t: Task, step: Step)
    requires Inv(s) && Can(s, t, step)
    ensures forall u: Task, v: Task :: Apart(Do(s, t, step), u, v)
  {
    var s' := Do(s, t, step);
    forall u: Task, v: Task ensures Apart(s', u, v) {
      assert Apart(s, u, v);
      if u != t { OthersStay(s, t, step, u); }
      if v != t { OthersStay(s, t, step, v); }
      if u != v && (u == t || v == t) { ApartFrom(s, t, step, if u == t then v else u); }
    }
  }

  lemma ApartFrom(s: State, t: Task, step: Step, u: Task)
    requires Inv(s) && Can(s, t, step) && u != t
    ensures !Conflict(RangeOf(At(Do(s, t, step), t)), RangeOf(At(s, u)))
    ensures forall p: nat :: !(HasPage(At(Do(s, t, step), t), p) && HasPage(At(s, u), p))
  {
    RangeTaken(s, t, step, u);
    forall p: nat | HasPage(At(Do(s, t, step), t), p) ensures !HasPage(At(s, u), p) { PageTaken(s, t, step, u, p); }
  }

  // ----- runs -----

  datatype Turn = Turn(task: Task, step: Step)

  function Run(run: seq<Turn>): State {
    if run == [] then INIT else Do(Run(run[..|run| - 1]), run[|run| - 1].task, run[|run| - 1].step)
  }

  ghost predicate Legal(run: seq<Turn>) {
    run == [] ||
    (Legal(run[..|run| - 1]) && Can(Run(run[..|run| - 1]), run[|run| - 1].task, run[|run| - 1].step))
  }

  lemma {:induction false} RunKeeps(run: seq<Turn>)
    requires Legal(run)
    ensures Inv(Run(run))
  {
    if run != [] {
      RunKeeps(run[..|run| - 1]);
      StepKeeps(Run(run[..|run| - 1]), run[|run| - 1].task, run[|run| - 1].step);
    }
  }

  /** In every run, a clean up-to-date page holds the file's byte, zero where nothing was written, wherever no writer
      holds the range lock over it. */
  lemma CleanPageIsFile(run: seq<Turn>, p: nat, j: nat)
    requires Legal(run) && p in Run(run).pages && j < PAGE
    requires Run(run).pages[p].uptodate && !Run(run).pages[p].dirty
    requires forall t: Task :: !Conflict(Range(p * PAGE + j, p * PAGE + j + 1, false), RangeOf(At(Run(run), t)))
    ensures |Run(run).pages[p].data| == PAGE && Run(run).pages[p].data[j] == FileAt(Run(run), p * PAGE + j)
  {
    var s := Run(run);
    RunKeeps(run);
    assert PageOk(s, p) && ByteOk(s, p, j);
    forall t: Task ensures !Stale(At(s, t), p * PAGE + j) {
      assert !Conflict(Range(p * PAGE + j, p * PAGE + j + 1, false), RangeOf(At(s, t)));
    }
  }

  // ----- the guard in update_pages -----

  /** The step as it was before the patch: every cached page is copied into and marked up to date. */
  function Unguarded(s: State, t: Task, lo: nat, hi: nat, kind: Kind, q: nat): State
    requires q in s.pages
  {
    var x := s.pages[q];
    Go(s.(pages := s.pages[q := Page(true, x.dirty, Merged(s, q, x.data, lo, hi))]), t, Updates(lo, hi, kind, q + 1))
  }

  /** Without the guard, the writer leaves the page it has come to right. */
  ghost predicate LeavesRight(s: State, t: Task)
    requires At(s, t).UpdateHas? && At(s, t).q in s.pages
  {
    var pc := At(s, t);
    forall j: nat :: ByteOk(Unguarded(s, t, pc.lo, pc.hi, pc.kind, pc.q), pc.q, j)
  }

  /** The same state with other bytes in page `q`. */
  function With(s: State, q: nat, data: seq<Byte>): State
    requires q in s.pages
  {
    s.(pages := s.pages[q := s.pages[q].(data := data)])
  }

  /** Byte `j` of the page the writer has come to is in no write still to be copied, its own or another's. */
  ghost predicate Bystander(s: State, t: Task, j: nat)
    requires At(s, t).UpdateHas?
  {
    var pc := At(s, t);
    j < PAGE && !(pc.lo <= pc.q * PAGE + j < pc.hi) && NobodyStale(s, pc.q * PAGE + j)
  }

  /** The guard: the page is up to date or dirty, or there is nothing on it but bytes being written. */
  ghost predicate MayCopy(s: State, t: Task)
    requires At(s, t).UpdateHas? && At(s, t).q in s.pages
  {
    var x := s.pages[At(s, t).q];
    x.uptodate || x.dirty || forall j: nat :: !Bystander(s, t, j)
  }

  lemma CopyRightAt(s: State, t: Task, j: nat)
    requires Inv(s) && At(s, t).UpdateHas? && At(s, t).q in s.pages && MayCopy(s, t)
    ensures ByteOk(Unguarded(s, t, At(s, t).lo, At(s, t).hi, At(s, t).kind, At(s, t).q), At(s, t).q, j)
  {
    var pc := At(s, t);
    var s' := Unguarded(s, t, pc.lo, pc.hi, pc.kind, pc.q);
    var x, q := pc.q * PAGE + j, pc.q;
    assert PageOk(s, q) && ByteOk(s, q, j);
    if !s.pages[q].dirty && j < PAGE && NobodyStale(s', x) {
      SameOwed(s, s', t, q, j);
      assert s'.pages[q].data == Merged(s, q, s.pages[q].data, pc.lo, pc.hi) && FileAt(s', x) == FileAt(s, x);
      if !(pc.lo <= x < pc.hi) {
        assert NobodyStale(s, x) && Bystander(s, t, j);
        assert s.pages[q].uptodate;
        assert s.pages[q].data[j] == FileAt(s, x);
      }
      assert s'.pages[q].data[j] == FileAt(s, x);
    }
  }

  lemma CopyRight(s: State, t: Task)
    requires Inv(s) && At(s, t).UpdateHas? && At(s, t).q in s.pages && MayCopy(s, t)
    ensures LeavesRight(s, t)
  {
    var pc := At(s, t);
    forall j: nat ensures ByteOk(Unguarded(s, t, pc.lo, pc.hi, pc.kind, pc.q), pc.q, j) { CopyRightAt(s, t, j); }
  }

  lemma SameTasks(s: State, s': State, x: int)
    requires s'.pcs == s.pcs
    ensures NobodyStale(s', x) <==> NobodyStale(s, x)
  {
    forall u: Task ensures Stale(At(s', u), x) <==> Stale(At(s, u), x) { }
  }

  /** An unfilled page may hold anything. */
  lemma UnfilledAny(s: State, q: nat, data: seq<Byte>)
    requires Inv(s) && q in s.pages && !s.pages[q].uptodate && |data| == PAGE
    ensures Inv(With(s, q, data))
  {
    var s' := With(s, q, data);
    forall p: nat, j: nat ensures ByteOk(s', p, j) {
      SameTasks(s, s', p * PAGE + j);
      assert ByteOk(s, p, j);
    }
    forall p: nat ensures PageOk(s', p) { assert PageOk(s, p); }
    forall u: Task ensures BufOk(s', u) { assert BufOk(s, u); }
    forall u: Task, p: nat ensures HeldIn(s', u, p) { assert HeldIn(s, u, p); }
    forall u: Task, v: Task ensures Apart(s', u, v) { assert Apart(s, u, v); }
  }

  lemma CopyWrong(s: State, t: Task, j: nat) returns (data: seq<Byte>)
    requires Inv(s) && At(s, t).UpdateHas? && At(s, t).q in s.pages && !s.pages[At(s, t).q].uptodate &&
             Bystander(s, t, j)
    ensures |data| == PAGE && Inv(With(s, At(s, t).q, data)) && !LeavesRight(With(s, At(s, t).q, data), t)
  {
    var pc := At(s, t);
    var x := pc.q * PAGE + j;
    data := seq(PAGE, i => FileAt(s, x) + 1);
    UnfilledAny(s, pc.q, data);
    var was := With(s, pc.q, data);
    var s' := Unguarded(was, t, pc.lo, pc.hi, pc.kind, pc.q);
    assert PageOk(s, pc.q);
    SameOwed(s, s', t, pc.q, j);
    assert s'.pages[pc.q].data[j] == FileAt(s, x) + 1 && FileAt(s', x) == FileAt(s, x);
    assert !ByteOk(s', pc.q, j) && At(was, t) == pc;
  }

  /** Whatever the page may hold, the step without the guard leaves it right if and only if the page is up to date or
      dirty, or every byte of it is being written. */
  lemma GuardNeeded(s: State, t: Task)
    requires Inv(s) && At(s, t).UpdateHas? && At(s, t).q in s.pages
    ensures (forall data: seq<Byte> ::
               Inv(With(s, At(s, t).q, data)) ==> LeavesRight(With(s, At(s, t).q, data), t)) <==>
            MayCopy(s, t)
  {
    var q := At(s, t).q;
    assert PageOk(s, q);
    if MayCopy(s, t) {
      forall data: seq<Byte> | Inv(With(s, q, data)) ensures LeavesRight(With(s, q, data), t) {
        forall j: nat ensures Bystander(With(s, q, data), t, j) ==> Bystander(s, t, j) {
          SameTasks(s, With(s, q, data), q * PAGE + j);
        }
        CopyRight(With(s, q, data), t);
      }
    } else {
      var j: nat :| Bystander(s, t, j);
      var data := CopyWrong(s, t, j);
    }
  }

  /** Outside its own write the step changes nothing about who owes page `q` a byte. */
  lemma SameOwed(s: State, s': State, t: Task, q: nat, j: nat)
    requires At(s, t).UpdateHas? && s'.pcs == s.pcs[t := Updates(At(s, t).lo, At(s, t).hi, At(s, t).kind, q + 1)]
    ensures !(At(s, t).lo <= q * PAGE + j < At(s, t).hi) ==>
            (NobodyStale(s', q * PAGE + j) <==> NobodyStale(s, q * PAGE + j))
  {
    var x := q * PAGE + j;
    forall u: Task ensures !(At(s, t).lo <= x < At(s, t).hi) ==> (Stale(At(s', u), x) <==> Stale(At(s, u), x)) { }
  }

  lemma Next(run: seq<Turn>, s: State, t: Task, step: Step) returns (more: seq<Turn>, s': State)
    requires LegalOld(run) && Run(run) == s && CanOld(s, t, step)
    ensures LegalOld(more) && Run(more) == s' == Do(s, t, step) && (Legal(run) && Can(s, t, step) ==> Legal(more))
  {
    more, s' := run + [Turn(t, step)], Do(s, t, step);
    assert more[..|more| - 1] == run;
  }

  // ----- two runs -----

  /** What the runs below come to: the tasks 0 and 1, and whether the pages below `n` are cached and unfilled. */
  ghost predicate Shows(s: State, pc0: Pc, pc1: Pc, n: nat) {
    && At(s, 0) == pc0 && At(s, 1) == pc1 && (forall u: Task :: u > 1 ==> At(s, u).Rest?)
    && forall p: nat :: p in s.pages <==> p < n
  }

  ghost predicate Unfilled(s: State, p: nat) { p in s.pages && !s.pages[p].uptodate && !s.pages[p].dirty }

  lemma Moved(s: State, t: Task, pc: Pc, pc0: Pc, pc1: Pc, n: nat)
    requires Shows(s, pc0, pc1, n) && t <= 1
    ensures Shows(Go(s, t, pc), if t == 0 then pc else pc0, if t == 1 then pc else pc1, n)
  {
    forall u: Task | u > 1 ensures At(Go(s, t, pc), u).Rest? { assert At(Go(s, t, pc), u) == At(s, u); }
  }

  /** Nothing of this depends on the file. */
  lemma FileAside(s: State, file: map<int, Byte>, pc0: Pc, pc1: Pc, n: nat)
    requires Shows(s, pc0, pc1, n)
    ensures Shows(s.(file := file), pc0, pc1, n)
  {
    forall u: Task | u > 1 ensures At(s.(file := file), u).Rest? { assert At(s.(file := file), u) == At(s, u); }
  }

  /** A writer takes the range it is going to write. */
  lemma WriterEnters(lo: nat, hi: nat) returns (run: seq<Turn>, s: State)
    requires lo < hi
    ensures Legal(run) && LegalOld(run) && Run(run) == s && Shows(s, WriteHas(lo, hi, Write), Rest, 0) &&
            s.file == map[]
  {
    run, s := [], INIT;
    run, s := Next(run, s, 0, Begin(WriteWants(lo, hi, Write)));
    assert Shows(s, WriteWants(lo, hi, Write), Rest, 0) && s.file == map[];
    run, s := Next(run, s, 0, Enter);
  }

  /** The writer's steps up to holding the lock of the page it has come to. */
  lemma Changes(s: State, lo: nat, hi: nat, bytes: map<int, Byte>)
    requires At(s, 0) == WriteHas(lo, hi, Write) && forall x :: x in bytes <==> lo <= x < hi
    ensures Can(s, 0, Change(bytes))
    ensures Do(s, 0, Change(bytes)) == Go(s.(file := s.file + bytes), 0, Updates(lo, hi, Write, lo / PAGE))
  {
  }

  lemma Looks(s: State, lo: nat, hi: nat, q: nat)
    requires At(s, 0) == Updates(lo, hi, Write, q) && q * PAGE < hi && q in s.pages
    ensures Can(s, 0, Look) && Do(s, 0, Look) == Go(s, 0, UpdateWants(lo, hi, Write, q))
  {
  }

  lemma Locks(s: State, lo: nat, hi: nat, q: nat, pc1: Pc, n: nat)
    requires Shows(s, UpdateWants(lo, hi, Write, q), pc1, n) && q < n && !HasPage(pc1, q)
    ensures Can(s, 0, Lock) && Do(s, 0, Lock) == Go(s, 0, UpdateHas(lo, hi, Write, q))
  {
    assert q in s.pages;
    forall u: Task | u != 0 ensures !HasPage(At(s, u), q) { assert u == 1 || At(s, u).Rest?; }
  }

  lemma WriterLooks(run0: seq<Turn>, s0: State, lo: nat, hi: nat, bytes: map<int, Byte>, pc1: Pc, n: nat)
    returns (run: seq<Turn>, s: State)
    requires LegalOld(run0) && Run(run0) == s0 && Shows(s0, WriteHas(lo, hi, Write), pc1, n)
    requires lo < hi && (forall x :: x in bytes <==> lo <= x < hi) && lo / PAGE < n
    ensures LegalOld(run) && Run(run) == s && (Legal(run0) ==> Legal(run))
    ensures Shows(s, UpdateWants(lo, hi, Write, lo / PAGE), pc1, n) && s.pages == s0.pages && s.file == s0.file + bytes
  {
    var q := lo / PAGE;
    Changes(s0, lo, hi, bytes);
    run, s := Next(run0, s0, 0, Change(bytes));
    FileAside(s0, s0.file + bytes, WriteHas(lo, hi, Write), pc1, n);
    Moved(s0.(file := s0.file + bytes), 0, Updates(lo, hi, Write, q), WriteHas(lo, hi, Write), pc1, n);
    var was := s;
    assert q in was.pages;
    Looks(was, lo, hi, q);
    run, s := Next(run, was, 0, Look);
    Moved(was, 0, UpdateWants(lo, hi, Write, q), Updates(lo, hi, Write, q), pc1, n);
  }

  /** From holding the range to holding the lock of a page nobody else has. */
  lemma WriterLocks(run0: seq<Turn>, s0: State, lo: nat, hi: nat, bytes: map<int, Byte>, pc1: Pc, n: nat)
    returns (run: seq<Turn>, s: State)
    requires LegalOld(run0) && Run(run0) == s0 && Shows(s0, WriteHas(lo, hi, Write), pc1, n)
    requires lo < hi && (forall x :: x in bytes <==> lo <= x < hi) && lo / PAGE < n && !HasPage(pc1, lo / PAGE)
    ensures LegalOld(run) && Run(run) == s && (Legal(run0) ==> Legal(run))
    ensures Shows(s, UpdateHas(lo, hi, Write, lo / PAGE), pc1, n) && s.pages == s0.pages && s.file == s0.file + bytes
  {
    var was;
    run, was := WriterLooks(run0, s0, lo, hi, bytes, pc1, n);
    Locks(was, lo, hi, lo / PAGE, pc1, n);
    run, s := Next(run, was, 0, Lock);
    Moved(was, 0, UpdateHas(lo, hi, Write, lo / PAGE), UpdateWants(lo, hi, Write, lo / PAGE), pc1, n);
  }

  lemma Faults(s: State, junk: seq<Byte>)
    requires Shows(s, WriteHas(0, 1, Write), Rest, 0) && |junk| == PAGE
    ensures Can(s, 1, FaultPage(0, junk))
    ensures Do(s, 1, FaultPage(0, junk)) == Go(s.(pages := s.pages[0 := Page(false, false, junk)]), 1, FaultNew(0))
  {
    forall u: Task ensures !HasPage(At(s, u), 0) { assert u == 0 || u == 1 || At(s, u).Rest?; }
  }

  /** A fault lets go of its new page to wait for the range a writer of one byte holds. */
  lemma FaultLetsGo(junk: seq<Byte>) returns (run: seq<Turn>, s: State)
    requires |junk| == PAGE
    ensures Legal(run) && LegalOld(run) && Run(run) == s && Shows(s, WriteHas(0, 1, Write), FaultWants(0), 1)
    ensures s.pages[0] == Page(false, false, junk) && s.file == map[]
  {
    run, s := WriterEnters(0, 1);
    var s0 := s;
    Faults(s0, junk);
    run, s := Next(run, s0, 1, FaultPage(0, junk));
    var s1 := s;
    FaultsShow(s0, junk);
    LetsGo(s1);
    run, s := Next(run, s1, 1, Unlock);
    Moved(s1, 1, FaultWants(0), WriteHas(0, 1, Write), FaultNew(0), 1);
  }

  lemma FaultsShow(s: State, junk: seq<Byte>)
    requires Shows(s, WriteHas(0, 1, Write), Rest, 0)
    ensures Shows(Go(s.(pages := s.pages[0 := Page(false, false, junk)]), 1, FaultNew(0)),
                  WriteHas(0, 1, Write), FaultNew(0), 1)
  {
    var s' := Go(s.(pages := s.pages[0 := Page(false, false, junk)]), 1, FaultNew(0));
    forall u: Task | u > 1 ensures At(s', u).Rest? { assert At(s', u) == At(s, u); }
  }

  lemma LetsGo(s: State)
    requires At(s, 1) == FaultNew(0)
    ensures Can(s, 1, Unlock) && Do(s, 1, Unlock) == Go(s, 1, FaultWants(0))
  {
  }

  lemma NotRight(s: State, junk: seq<Byte>)
    requires |junk| == PAGE && junk[1] != 0 && Shows(s, UpdateHas(0, 1, Write, 0), FaultWants(0), 1)
    requires s.pages[0] == Page(false, false, junk) && s.file == map[0 := 5]
    ensures !MayCopy(s, 0) && !LeavesRight(s, 0)
  {
    var s' := Unguarded(s, 0, 0, 1, Write, 0);
    assert s'.pages[0].data[1] == junk[1] && FileAt(s', 1) == 0;
    forall u: Task ensures !Stale(At(s, u), 1) && !Stale(At(s', u), 1) { assert u == 0 || u == 1 || At(s, u).Rest?; }
    assert Bystander(s, 0, 1) && !ByteOk(s', 0, 1);
  }

  /** So the case does come up: the writer has locked a page nobody filled, and without the guard would pass off what
      the allocator left in it as the file's. */
  lemma UnfilledReached(junk: seq<Byte>) returns (run: seq<Turn>)
    requires |junk| == PAGE && junk[1] != 0
    ensures Legal(run) && At(Run(run), 0).UpdateHas? && At(Run(run), 0).q in Run(run).pages
    ensures !MayCopy(Run(run), 0) && !LeavesRight(Run(run), 0)
  {
    var s;
    run, s := FaultLetsGo(junk);
    var was := s;
    run, s := WriterLocks(run, was, 0, 1, map[0 := 5], FaultWants(0), 1);
    assert s.file == map[0 := 5];
    NotRight(s, junk);
  }

  // ----- waiting -----

  /** The protocol before the patch: a batch may also wait. */
  ghost predicate CanOld(s: State, t: Task, step: Step) { if step.Wait? then At(s, t).BatchNew? else Can(s, t, step) }

  ghost predicate LegalOld(run: seq<Turn>) {
    run == [] ||
    (LegalOld(run[..|run| - 1]) && CanOld(Run(run[..|run| - 1]), run[|run| - 1].task, run[|run| - 1].step))
  }

  /** The range a task waits for. */
  function Wanted(pc: Pc): Range {
    if pc.BatchWants? then PageRange(pc.b, pc.b + 1, false)
    else if AwaitsRange(pc) then RangeOf(Entered(pc))
    else NoRange
  }

  /** `t` waits for something `u` has: the range, or a page. */
  predicate WaitsFor(s: State, t: Task, u: Task) {
    var pc := At(s, t);
    Conflict(Wanted(pc), RangeOf(At(s, u))) || (AwaitsPage(pc) && HasPage(At(s, u), pc.q))
  }

  function Rank(pc: Pc): nat { if Wanted(pc).Range? then 2 else if AwaitsPage(pc) then 1 else 0 }

  /** Whoever waits for the range has no page locked and no range, and whoever has a page locked waits for nothing: a
      fault waits with its page unlocked, and a readahead batch only tries. */
  lemma WaitDescends(s: State, t: Task, u: Task)
    requires Inv(s) && WaitsFor(s, t, u)
    ensures Rank(At(s, u)) < Rank(At(s, t))
  {
    assert BufOk(s, t) && BufOk(s, u);
  }

  ghost predicate Chain(s: State, c: seq<Task>) {
    |c| > 0 && forall i :: 0 <= i < |c| - 1 ==> WaitsFor(s, c[i], c[i + 1])
  }

  lemma {:induction false} ChainDescends(s: State, c: seq<Task>)
    requires Inv(s) && Chain(s, c)
    ensures Rank(At(s, c[|c| - 1])) + |c| - 1 <= Rank(At(s, c[0]))
    decreases |c|
  {
    if |c| > 1 {
      var d := c[..|c| - 1];
      forall i | 0 <= i < |d| - 1 ensures WaitsFor(s, d[i], d[i + 1]) { assert WaitsFor(s, c[i], c[i + 1]); }
      ChainDescends(s, d);
      assert WaitsFor(s, c[|c| - 2], c[|c| - 1]);
      WaitDescends(s, c[|c| - 2], c[|c| - 1]);
    }
  }

  /** No run comes to a circle of waiting tasks, or to a chain of more than three. */
  lemma NoCircle(run: seq<Turn>, c: seq<Task>)
    requires Legal(run) && Chain(Run(run), c)
    ensures |c| > 1 ==> c[0] != c[|c| - 1]
    ensures |c| <= 3
  {
    RunKeeps(run);
    ChainDescends(Run(run), c);
  }

  function Zeros(lo: nat, hi: nat): (r: map<int, Byte>)
    ensures forall x :: x in r <==> lo <= x < hi
    ensures forall x :: x in r ==> r[x] == 0
    decreases hi - lo
  {
    if lo >= hi then map[] else Zeros(lo + 1, hi)[lo := 0]
  }

  /** A task nobody keeps waiting has a step to take. */
  lemma UnblockedMoves(s: State, t: Task) returns (step: Step)
    requires Inv(s) && forall u: Task :: !WaitsFor(s, t, u)
    ensures Can(s, t, step)
  {
    var pc := At(s, t);
    assert BufOk(s, t);
    if AwaitsRange(pc) {
      forall u: Task ensures !Conflict(RangeOf(Entered(pc)), RangeOf(At(s, u))) { assert !WaitsFor(s, t, u); }
      step := Enter;
    } else if AwaitsPage(pc) {
      forall u: Task ensures !HasPage(At(s, u), pc.q) { assert !WaitsFor(s, t, u); }
      step := Lock;
    } else {
      match pc
      case Rest => step := Begin(PutWants(0));
      case WriteHas(lo, hi, _) => step := Change(Zeros(lo, hi));
      case Updates(_, _, _, _) => step := Look;
      case UpdateHas(_, _, _, _) => step := Update;
      case FaultNew(_) => step := Unlock;
      case FaultHas(_) => step := Read;
      case BatchNew(_, _) => step := GiveUp(true);
      case BatchFills(_, e, k) => step := if k < e then Read else Fill;
      case FaultReady(_, _) => step := Fill;
      case BatchReady(_, _, _, _) => step := Fill;
      case PutHas(_) => step := Clean;
      case PutClean(_) => step := Clean;
    }
  }

  /** In every run, whoever waits, the chain of waits that starts with it ends at a task that can take a step. */
  lemma {:induction false} SomebodyMoves(run: seq<Turn>, t: Task) returns (c: seq<Task>, step: Step)
    requires Legal(run)
    ensures Chain(Run(run), c) && c[0] == t && Can(Run(run), c[|c| - 1], step)
    decreases Rank(At(Run(run), t))
  {
    var s := Run(run);
    RunKeeps(run);
    if u: Task :| WaitsFor(s, t, u) {
      WaitDescends(s, t, u);
      var d, more := SomebodyMoves(run, u);
      c, step := [t] + d, more;
      forall i | 0 <= i < |c| - 1 ensures WaitsFor(s, c[i], c[i + 1]) { assert i > 0 ==> c[i] == d[i - 1]; }
    } else {
      c := [t];
      step := UnblockedMoves(s, t);
    }
  }

  // ----- what trying spares -----

  const LO: nat := PAGE - 1
  const HI: nat := PAGE + 1

  lemma AddsTwo(s: State, junk: seq<Byte>)
    requires Shows(s, WriteHas(LO, HI, Write), Rest, 0) && |junk| == PAGE
    ensures Can(s, 1, AddBatch(0, 2, junk))
    ensures Shows(Do(s, 1, AddBatch(0, 2, junk)), WriteHas(LO, HI, Write), BatchNew(0, 2), 2)
    ensures Unfilled(Do(s, 1, AddBatch(0, 2, junk)), 0)
  {
    var s' := Do(s, 1, AddBatch(0, 2, junk));
    assert s'.pages == Added(s.pages, 0, 2, junk);
    forall u: Task | u > 1 ensures At(s', u).Rest? { assert At(s', u) == At(s, u); }
  }

  /** A writer holds the range of two bytes, one on each of two pages; readahead of both has unlocked the first and
      waits for its range. */
  lemma BatchWaits(junk: seq<Byte>) returns (run: seq<Turn>, s: State)
    requires |junk| == PAGE
    ensures LegalOld(run) && Run(run) == s && Shows(s, WriteHas(LO, HI, Write), BatchWants(0, 2), 2) && Unfilled(s, 0)
  {
    run, s := WriterEnters(LO, HI);
    AddsTwo(s, junk);
    run, s := Next(run, s, 1, AddBatch(0, 2, junk));
    var was := s;
    run, s := Next(run, s, 1, Wait);
    assert s == Go(was, 1, BatchWants(0, 2));
    Moved(was, 1, BatchWants(0, 2), WriteHas(LO, HI, Write), BatchNew(0, 2), 2);
  }

  /** The writer leaves an unfilled page to its filler. */
  lemma Skips(s: State, lo: nat, hi: nat, q: nat)
    requires At(s, 0) == UpdateHas(lo, hi, Write, q) && Unfilled(s, q)
    ensures Can(s, 0, Update) && Do(s, 0, Update) == Go(s, 0, Updates(lo, hi, Write, q + 1))
  {
  }

  lemma FirstSkipped(junk: seq<Byte>) returns (run: seq<Turn>, s: State)
    requires |junk| == PAGE
    ensures LegalOld(run) && Run(run) == s && Shows(s, Updates(LO, HI, Write, 1), BatchWants(0, 2), 2)
  {
    run, s := BatchWaits(junk);
    run, s := WriterLocks(run, s, LO, HI, map[LO := 5, LO + 1 := 6], BatchWants(0, 2), 2);
    var was := s;
    Skips(was, LO, HI, 0);
    run, s := Next(run, was, 0, Update);
    Moved(was, 0, Updates(LO, HI, Write, 1), UpdateHas(LO, HI, Write, 0), BatchWants(0, 2), 2);
  }

  lemma EachOther(s: State)
    requires Shows(s, UpdateWants(LO, HI, Write, 1), BatchWants(0, 2), 2)
    ensures WaitsFor(s, 0, 1) && WaitsFor(s, 1, 0)
  {
  }

  /** Before the patch the two come to wait for each other: the writer for the second page, which the batch has locked,
      the batch for the range the writer holds. */
  lemma OldCircle(junk: seq<Byte>) returns (run: seq<Turn>)
    requires |junk| == PAGE
    ensures LegalOld(run) && WaitsFor(Run(run), 0, 1) && WaitsFor(Run(run), 1, 0)
  {
    var was, s;
    run, was := FirstSkipped(junk);
    assert 1 in was.pages;
    Looks(was, LO, HI, 1);
    run, s := Next(run, was, 0, Look);
    Moved(was, 0, UpdateWants(LO, HI, Write, 1), Updates(LO, HI, Write, 1), BatchWants(0, 2), 2);
    EachOther(s);
  }
}
