module Readahead {
  /**
   zfs_getpages of patches/zfs/zpl-readahead-batch.patch: one readahead batch filled from holds of the
   blocks behind it, in pieces.
   */
  import opened Basics

  newtype byte = x: int | 0 <= x < 256

  const PAGE: nat := 4096

  /** ISP2: zero counts as a power of two. */
  predicate IsPow2(x: nat) { x <= 1 || (x % 2 == 0 && IsPow2(x / 2)) }

  /** Zero or a power of two. */
  ghost predicate ZeroOrPower(x: nat) { x == 0 || exists k: nat :: x == Pow2(k) }

  lemma {:induction false} PowersAre(k: nat)
    ensures IsPow2(Pow2(k))
  {
    if k > 0 {
      PowersAre(k - 1);
      assert Pow2(k) / 2 == Pow2(k - 1) && Pow2(k) % 2 == 0;
    }
  }

  lemma {:induction false} IsPow2Iff(x: nat)
    ensures IsPow2(x) <==> ZeroOrPower(x)
  {
    if x == 1 {
      assert x == Pow2(0);
    } else if x > 1 && IsPow2(x) {
      IsPow2Iff(x / 2);
      var k: nat :| x / 2 == Pow2(k);
      assert x == Pow2(k + 1);
    } else if x > 1 && ZeroOrPower(x) {
      var k: nat :| x == Pow2(k);
      PowersAre(k);
    }
  }

  /** A block held by dmu_buf_hold_array_by_bonus. */
  datatype Block = Block(offset: nat, data: seq<byte>)

  function End(b: Block): nat { b.offset + |b.data| }

  /** What a successful hold of the range from `off` to `end` gives: consecutive blocks, none empty, that cover the
      range and carry the file's bytes in it. */
  ghost predicate Covers(blocks: seq<Block>, off: nat, end: nat, file: seq<byte>) {
    && off < end <= |file| && blocks != []
    && blocks[0].offset <= off < End(blocks[0]) && end <= End(blocks[|blocks| - 1])
    && (forall i :: 0 <= i < |blocks| ==> |blocks[i].data| > 0)
    && (forall i :: 0 <= i < |blocks| - 1 ==> End(blocks[i]) == blocks[i + 1].offset)
    && forall i, x :: 0 <= i < |blocks| && off <= x < end && blocks[i].offset <= x < End(blocks[i]) ==>
         blocks[i].data[x - blocks[i].offset] == file[x]
  }

  /** The byte a reader of the file sees at `x`. */
  function FileByte(file: seq<byte>, eff: nat, x: nat): byte
    requires eff <= |file|
  {
    if x < eff then file[x] else 0
  }

  class Page {
    const data: array<byte>
    var uptodate: bool
    var error: bool
    var locked: bool
    var refs: int

    constructor ()
      ensures data.Length == PAGE && fresh(data)
    {
      data := new byte[PAGE];
    }
  }

  /** What can be seen of a page: `data` is the value of its bytes. */
  datatype Look = Look(uptodate: bool, error: bool, locked: bool, refs: int, data: seq<byte>)

  ghost function LookAt(p: Page): Look
    reads p, p.data
  {
    Look(p.uptodate, p.error, p.locked, p.refs, p.data[..])
  }

  /** The page's worth of the file at `off`, as a reader sees it. */
  function PageBytes(file: seq<byte>, eff: nat, off: nat): seq<byte>
    requires eff <= |file|
  {
    seq(PAGE, j requires 0 <= j => FileByte(file, eff, off + j))
  }

  /** A page filled from the file at `off`, up to date, unlocked and given back. */
  function Filled(was: Look, file: seq<byte>, eff: nat, off: nat): Look
    requires eff <= |file|
  {
    Look(true, false, false, was.refs - 1, PageBytes(file, eff, off))
  }

  /** The pages of a batch at `start` with those from `lo` to `hi` filled. */
  function FillRange(was: seq<Look>, lo: nat, hi: nat, start: nat, file: seq<byte>, eff: nat): seq<Look>
    requires eff <= |file|
  {
    seq(|was|, k requires 0 <= k < |was| =>
          if lo <= k < hi then Filled(was[k], file, eff, start + k * PAGE) else was[k])
  }

  lemma FillMore(was: seq<Look>, lo: nat, mid: nat, hi: nat, start: nat, file: seq<byte>, eff: nat)
    requires eff <= |file| && lo <= mid <= hi
    ensures FillRange(FillRange(was, lo, mid, start, file, eff), mid, hi, start, file, eff) ==
            FillRange(was, lo, hi, start, file, eff)
    ensures FillRange(was, lo, lo, start, file, eff) == was
  {
  }

  /** readahead_control: the pages not taken yet are the ones from `next` on, and it may run out early. */
  class Batch {
    const pages: seq<Page>
    const have: nat
    var next: nat

    constructor (pages: seq<Page>, have: nat)
      requires have <= |pages|
    {
      this.pages, this.have, next := pages, have, 0;
    }

    method Take() returns (p: Page?)
      requires next <= have <= |pages|
      modifies this
      ensures next <= have
      ensures if old(next) < have then p == pages[old(next)] && next == old(next) + 1
              else p == null && next == old(next)
    {
      if next == have {
        return null;
      }
      p := pages[next];
      next := next + 1;
    }
  }

  /** The block that holds `x`, while there is something left to copy before `end`. */
  ghost predicate At(blocks: seq<Block>, di: nat, x: nat, end: nat) {
    x < end ==> di < |blocks| && blocks[di].offset <= x < End(blocks[di])
  }

  /** Running off the end of a block before `end` means there is a next one. */
  lemma NextAt(blocks: seq<Block>, di: nat, x: nat, end: nat, off: nat, file: seq<byte>)
    requires Covers(blocks, off, end, file) && di < |blocks| && x == End(blocks[di])
    ensures At(blocks, di + 1, x, end)
  {
    assert x < end ==> di < |blocks| - 1;
  }

  /** The copy loop for one page at `off`, its bytes zeroed past `end`. */
  method FillPage(p: Page, off: nat, end: nat, blocks: seq<Block>, di0: nat, ghost from: nat, ghost file: seq<byte>,
                  ghost eff: nat)
    returns (di: nat, pgoff: nat)
    requires p.data.Length == PAGE && from <= off && eff <= |file|
    requires off < end ==> Covers(blocks, from, end, file)
    requires At(blocks, di0, off, end)
    requires end <= eff && (end < eff ==> off + PAGE <= end)
    modifies p.data
    ensures At(blocks, di, off + PAGE, end)
    ensures p.data[..] == PageBytes(file, eff, off)
    ensures pgoff == if off + PAGE <= end then PAGE else if off < end then end - off else 0
  {
    di, pgoff := di0, 0;
    while pgoff < PAGE && off + pgoff < end
      invariant pgoff <= PAGE && (off < end ==> off + pgoff <= end) && (off >= end ==> pgoff == 0)
      invariant At(blocks, di, off + pgoff, end)
      invariant forall j :: 0 <= j < pgoff ==> p.data[j] == file[off + j]
    {
      var db := blocks[di];
      var bufoff := off + pgoff - db.offset;
      var tocpy := Min(|db.data| - bufoff, PAGE - pgoff);
      tocpy := Min(tocpy, end - off - pgoff);
      for k := 0 to tocpy
        invariant forall j :: 0 <= j < pgoff + k ==> p.data[j] == file[off + j]
      {
        p.data[pgoff + k] := db.data[bufoff + k];
      }
      pgoff := pgoff + tocpy;
      if bufoff + tocpy == |db.data| {
        NextAt(blocks, di, off + pgoff, end, from, file);
        di := di + 1;
      }
    }
    for j := pgoff to PAGE
      invariant forall i :: 0 <= i < j ==> p.data[i] == if i < pgoff then file[off + i] else 0
    {
      p.data[j] := 0;
    }
    forall j | 0 <= j < PAGE ensures p.data[j] == FileByte(file, eff, off + j) { }
    assert p.data[..] == PageBytes(file, eff, off);
  }

  ghost function Looks(b: Batch): (r: seq<Look>)
    reads b.pages, set p | p in b.pages :: p.data
    ensures |r| == |b.pages|
  {
    seq(|b.pages|, k requires 0 <= k < |b.pages| reads b.pages, set p | p in b.pages :: p.data => LookAt(b.pages[k]))
  }

  ghost predicate Separate(b: Batch)
    reads b
  {
    && b.next <= b.have <= |b.pages|
    && (forall k :: 0 <= k < |b.pages| ==> b.pages[k].data.Length == PAGE)
    && forall i, j :: 0 <= i < j < |b.pages| ==> b.pages[i] != b.pages[j] && b.pages[i].data != b.pages[j].data
  }

  /** How many bytes of the file the first `n` pages hold. */
  function Copied(start: nat, n: nat, eff: nat): nat { Max(0, Min(start + n * PAGE, eff) - start) }

  /** One page of the batch, taken and filled. */
  method FillNext(b: Batch, start: nat, end: nat, blocks: seq<Block>, di0: nat, ghost from: nat, ghost file: seq<byte>,
                  ghost eff: nat)
    returns (some: bool, di: nat, got: nat)
    requires Separate(b) && from <= start + b.next * PAGE && eff <= |file|
    requires start + b.next * PAGE < end ==> Covers(blocks, from, end, file)
    requires At(blocks, di0, start + b.next * PAGE, end)
    requires end <= eff && (end < eff ==> start + b.next * PAGE + PAGE <= end)
    modifies b, b.pages, set p | p in b.pages :: p.data
    ensures Separate(b) && b.next == old(b.next) + (if some then 1 else 0)
    ensures !some ==> di == di0 && got == 0 && b.next == b.have
    ensures Looks(b) == FillRange(old(Looks(b)), old(b.next), b.next, start, file, eff)
    ensures some ==> At(blocks, di, start + b.next * PAGE, end)
    ensures some ==> Copied(start, old(b.next), eff) + got == Copied(start, b.next, eff)
  {
    ghost var n := b.next;
    var off := start + b.next * PAGE;
    var p := b.Take();
    di, got := di0, 0;
    some := p != null;
    if some {
      di, got := FillPage(p, off, end, blocks, di0, from, file, eff);
      p.error := false;
      p.uptodate := true;
      p.locked := false;
      p.refs := p.refs - 1;
    }
  }

  /** The pages of one piece, all of them or as many as the batch still has. */
  method FillPiece(b: Batch, start: nat, limit: nat, end: nat, blocks: seq<Block>, ghost file: seq<byte>,
      ghost eff: nat)
    returns (out: bool, got: nat)
    requires Separate(b) && eff <= |file| && start + b.next * PAGE < limit && (limit - start) % PAGE == 0
    requires end == Min(limit, eff)
    requires start + b.next * PAGE < end ==> Covers(blocks, start + b.next * PAGE, end, file)
    modifies b, b.pages, set p | p in b.pages :: p.data
    ensures Separate(b) && old(b.next) <= b.next
    ensures Looks(b) == FillRange(old(Looks(b)), old(b.next), b.next, start, file, eff)
    ensures Copied(start, old(b.next), eff) + got == Copied(start, b.next, eff)
    ensures if out then b.next == b.have else start + b.next * PAGE == limit
  {
    var di := 0;
    ghost var from, was, lo := start + b.next * PAGE, Looks(b), b.next;
    out, got := false, 0;
    FillMore(was, lo, lo, lo, start, file, eff);
    while start + b.next * PAGE < limit
      invariant Separate(b) && lo <= b.next && start + b.next * PAGE <= limit
      invariant At(blocks, di, start + b.next * PAGE, end)
      invariant Looks(b) == FillRange(was, lo, b.next, start, file, eff)
      invariant Copied(start, lo, eff) + got == Copied(start, b.next, eff)
      decreases limit - b.next * PAGE
    {
      ghost var mid := b.next;
      WholePages(limit - start, b.next);
      var some, more;
      some, di, more := FillNext(b, start, end, blocks, di, from, file, eff);
      FillMore(was, lo, mid, b.next, start, file, eff);
      got := got + more;
      if !some {
        return true, got;
      }
    }
  }

  lemma WholePages(length: nat, n: nat)
    requires length % PAGE == 0 && n * PAGE < length
    ensures (n + 1) * PAGE <= length
  {
  }

  /** A page that holds the file at `off` up to `end` and zeros after it, up to date, unlocked and given back. */
  ghost predicate Serves(was: Look, now: Look, off: nat, file: seq<byte>, end: nat)
    requires end <= |file|
  {
    && now.uptodate && !now.error && !now.locked && now.refs == was.refs - 1 && |now.data| == PAGE
    && forall j :: 0 <= j < PAGE ==> now.data[j] == if off + j < end then file[off + j] else 0
  }

  /** So do the first `n` pages, and the rest are as they were. */
  ghost predicate Shows(was: seq<Look>, now: seq<Look>, n: nat, start: nat, file: seq<byte>, end: nat) {
    && |now| == |was| && end <= |file| && n <= |now|
    && (forall i :: 0 <= i < n ==> Serves(was[i], now[i], start + i * PAGE, file, end))
    && forall i :: n <= i < |now| ==> now[i] == was[i]
  }

  lemma FilledServes(was: Look, file: seq<byte>, eff: nat, off: nat)
    requires eff <= |file|
    ensures Serves(was, Filled(was, file, eff, off), off, file, eff)
  {
    var data := PageBytes(file, eff, off);
    forall j | 0 <= j < PAGE ensures data[j] == if off + j < eff then file[off + j] else 0 {
      assert data[j] == FileByte(file, eff, off + j);
    }
  }

  lemma FilledShows(was: seq<Look>, n: nat, start: nat, file: seq<byte>, eff: nat)
    requires eff <= |file| && n <= |was|
    ensures Shows(was, FillRange(was, 0, n, start, file, eff), n, start, file, eff)
  {
    var now := FillRange(was, 0, n, start, file, eff);
    forall i | 0 <= i < n ensures Serves(was[i], now[i], start + i * PAGE, file, eff) {
      FilledServes(was[i], file, eff, start + i * PAGE);
    }
  }

  predicate OnPage(start: nat, n: nat, x: nat) { start <= x < start + n * PAGE }

  /** The bytes of the file on the first `n` pages. */
  ghost function OnPages(start: nat, n: nat, end: nat): set<nat> { set x: nat | x < end && OnPage(start, n, x) }

  lemma {:induction false} CopiedCounts(start: nat, n: nat, end: nat)
    ensures Copied(start, n, end) == |OnPages(start, n, end)|
    decreases end
  {
    if end == 0 {
      assert OnPages(start, n, end) == {};
    } else {
      CopiedCounts(start, n, end - 1);
      if OnPage(start, n, end - 1) {
        assert OnPages(start, n, end) == OnPages(start, n, end - 1) + {end - 1};
      } else {
        assert OnPages(start, n, end) == OnPages(start, n, end - 1);
      }
    }
  }

  /** What the batch is left with, and how much of the file that is. */
  ghost predicate Read(was: seq<Look>, now: seq<Look>, n: nat, filled: nat, start: nat, file: seq<byte>, end: nat) {
    Shows(was, now, n, start, file, end) && filled == |OnPages(start, n, end)|
  }

  lemma FilledRead(was: seq<Look>, n: nat, start: nat, file: seq<byte>, end: nat)
    requires end <= |file| && n <= |was|
    ensures Read(was, FillRange(was, 0, n, start, file, end), n, Copied(start, n, end), start, file, end)
  {
    FilledShows(was, n, start, file, end);
    CopiedCounts(start, n, end);
  }

  /** Some part of the file from `off` on cannot be held. */
  ghost predicate HoldFails(hold: (nat, nat) -> Option<seq<Block>>, off: nat, file: seq<byte>) {
    exists end: nat :: off < end <= |file| && hold(off, end).None?
  }

  /** Answers of dmu_buf_hold_array_by_bonus: it may fail, and what it gives on success covers the range asked for. */
  ghost predicate HoldsCover(hold: (nat, nat) -> Option<seq<Block>>, file: seq<byte>) {
    forall off: nat, end: nat :: off < end <= |file| && hold(off, end).Some? ==>
      Covers(hold(off, end).value, off, end, file)
  }

  /** The loop over the pieces. */
  method ReadPieces(b: Batch, start: nat, file: seq<byte>, isize: nat, piece: nat,
                    hold: (nat, nat) -> Option<seq<Block>>)
    returns (filled: nat)
    requires Separate(b) && b.next == 0 && piece > 0 && piece % PAGE == 0 && HoldsCover(hold, file) && isize <= |file|
    modifies b, b.pages, set p | p in b.pages :: p.data
    ensures b.next <= |b.pages| && filled == Copied(start, b.next, isize)
    ensures Looks(b) == FillRange(old(Looks(b)), 0, b.next, start, file, isize)
    ensures b.next < b.have ==> HoldFails(hold, start + b.next * PAGE, file)
  {
    filled := 0;
    var stop := start + |b.pages| * PAGE;
    ghost var was := Looks(b);
    FillMore(was, 0, 0, 0, start, file, isize);
    var off := start;
    while off < stop
      invariant Separate(b) && off == start + b.next * PAGE <= stop
      invariant stop == start + |b.pages| * PAGE || (off == stop && b.next == b.have)
      invariant Looks(b) == FillRange(was, 0, b.next, start, file, isize)
      invariant filled == Copied(start, b.next, isize)
      decreases stop - off
    {
      var limit := Min(stop, off + piece);
      var end := Min(limit, isize);
      var blocks := [];
      if end > off {
        var held := hold(off, end);
        if held.None? {
          break;
        }
        blocks := held.value;
      }
      ghost var mid := b.next;
      PieceAligned(|b.pages|, b.next, piece);
      var out, got := FillPiece(b, start, limit, end, blocks, file, isize);
      FillMore(was, 0, mid, b.next, start, file, isize);
      filled := filled + got;
      off := start + b.next * PAGE;
      if out {
        stop := off;
      }
    }
  }

  /** zfs_getpages. `entered` and `locked` say whether the filesystem could be entered and the range lock taken
      without waiting. For any file length, batch and piece size: the pages taken are a prefix of the batch, each holds
      what a reader of the file sees there and is up to date and unlocked, the rest are as the kernel left them, and
      the bytes counted are the file's bytes in the pages taken. A reader sees the whole file, unless the block size is
      no power of two: then only what one block can hold, and zeros. */
  method GetPages(b: Batch, start: nat, file: seq<byte>, blksz: nat, piece: nat, entered: bool, locked: bool,
                  hold: (nat, nat) -> Option<seq<Block>>)
    returns (filled: nat)
    requires Separate(b) && b.next == 0 && piece > 0 && piece % PAGE == 0 && HoldsCover(hold, file)
    modifies b, b.pages, set p | p in b.pages :: p.data
    ensures b.next <= |b.pages|
    ensures ZeroOrPower(blksz) ==> Read(old(Looks(b)), Looks(b), b.next, filled, start, file, |file|)
    ensures !ZeroOrPower(blksz) ==>
              Read(old(Looks(b)), Looks(b), b.next, filled, start, file, Min(|file|, blksz))
    ensures !entered || !locked ==> b.next == 0
    ensures entered && locked && b.next < b.have ==> HoldFails(hold, start + b.next * PAGE, file)
  {
    filled := 0;
    ghost var was := Looks(b);
    var isize := |file|;
    if !IsPow2(blksz) {
      isize := Min(isize, blksz);
    }
    IsPow2Iff(blksz);
    FillMore(was, 0, 0, 0, start, file, isize);
    FilledRead(was, 0, start, file, isize);
    var stop := start + |b.pages| * PAGE;
    if stop == start || !entered {
      return;
    }
    if !locked {
      return;
    }
    filled := ReadPieces(b, start, file, isize, piece, hold);
    FilledRead(was, b.next, start, file, isize);
  }

  lemma PieceAligned(count: nat, next: nat, piece: nat)
    requires piece % PAGE == 0
    ensures (count * PAGE) % PAGE == 0 && (next * PAGE + piece) % PAGE == 0
  {
  }
}
