module ChunkAlloc {
  /** abd_alloc_chunks: how a buffer is cut into folios, and abd_lru_index: where they go in the mapping. */
  import opened Basics

  const PAGE: nat := 4096

  /** highbit64(n) - 1. */
  function {:induction false} Log2(n: nat): (r: nat)
    requires n > 0
    ensures Pow2(r) <= n < Pow2(r + 1)
  {
    if n == 1 then 0 else Log2(n / 2) + 1
  }

  function PagesOf(orders: seq<nat>): seq<nat> { seq(|orders|, i requires 0 <= i < |orders| => Pow2(orders[i])) }

  predicate NonIncreasing(s: seq<nat>) { forall i, j :: 0 <= i < j < |s| ==> s[j] <= s[i] }

  /** abd_chunkcnt_for_bytes. */
  function PagesFor(size: nat): nat { (size + PAGE - 1) / PAGE }

  lemma SumAppend(s: seq<nat>, x: nat)
    ensures Sum(s + [x]) == Sum(s) + x
  {
    assert (s + [x])[..|s|] == s;
  }

  lemma PagesAppend(orders: seq<nat>, order: nat)
    ensures Sum(PagesOf(orders + [order])) == Sum(PagesOf(orders)) + Pow2(order)
  {
    SumAppend(PagesOf(orders), Pow2(order));
    assert PagesOf(orders + [order]) == PagesOf(orders) + [Pow2(order)];
  }

  /** highbit64 less one, of a need that may be met. */
  function HighBit(n: nat): nat { if n == 0 then 0 else Log2(n) }

  /** The pages still needed when chunk `i` is asked for. */
  function RestAt(orders: seq<nat>, i: nat, need: nat): nat
    requires i <= |orders|
  {
    var got := Sum(PagesOf(orders[..i]));
    if got < need then need - got else 0
  }

  /** The order chunk `i` is first asked for with: the largest that fits, or the cap; `top` gives the largest. */
  function Asked(orders: seq<nat>, i: nat, need: nat, cap: nat, top: nat -> nat): nat
    requires i <= |orders|
  {
    Min(top(RestAt(orders, i, need)), cap)
  }

  /** The largest order chunk `i` may have: the limit, or one less than the smallest order that failed before. */
  function Cap(orders: seq<nat>, i: nat, need: nat, limit: nat, top: nat -> nat): nat
    requires i <= |orders|
  {
    if i == 0 then limit
    else
      var cap := Cap(orders, i - 1, need, limit, top);
      if orders[i - 1] < Asked(orders, i - 1, need, cap, top) then orders[i - 1] else cap
  }

  /** Every larger order was asked for and failed, and this one did not: `fails` says whether an allocation of an order
      fails with so many pages already there. */
  ghost predicate Best(orders: seq<nat>, i: nat, need: nat, limit: nat, fails: (nat, nat) -> bool, top: nat -> nat)
    requires i < |orders|
  {
    var cap := Cap(orders, i, need, limit, top);
    var got := Sum(PagesOf(orders[..i]));
    && got < need && orders[i] <= Asked(orders, i, need, cap, top)
    && (forall o: nat :: orders[i] < o <= Asked(orders, i, need, cap, top) ==> fails(got, o))
    && (orders[i] > 0 ==> !fails(got, orders[i]))
  }

  ghost predicate AllBest(orders: seq<nat>, need: nat, limit: nat, fails: (nat, nat) -> bool, top: nat -> nat) {
    forall i :: 0 <= i < |orders| ==> Best(orders, i, need, limit, fails, top)
  }

  /** What was chosen so far stays as it was chosen. */
  lemma {:induction false} CapStays(orders: seq<nat>, order: nat, i: nat, need: nat, limit: nat, top: nat -> nat)
    requires i <= |orders|
    ensures Cap(orders + [order], i, need, limit, top) == Cap(orders, i, need, limit, top)
    ensures RestAt(orders + [order], i, need) == RestAt(orders, i, need)
    ensures Sum(PagesOf((orders + [order])[..i])) == Sum(PagesOf(orders[..i]))
  {
    assert (orders + [order])[..i] == orders[..i];
    if i > 0 { CapStays(orders, order, i - 1, need, limit, top); }
  }

  lemma BestStays(orders: seq<nat>, order: nat, i: nat, need: nat, limit: nat, fails: (nat, nat) -> bool,
                  top: nat -> nat)
    requires i < |orders| && Best(orders, i, need, limit, fails, top)
    ensures Best(orders + [order], i, need, limit, fails, top)
  {
    CapStays(orders, order, i, need, limit, top);
  }

  /** Where the loop stands: `maxOrder` is the cap, or what failures for the next chunk have left of it. */
  ghost predicate Underway(orders: seq<nat>, got: nat, need: nat, limit: nat, maxOrder: nat,
                           fails: (nat, nat) -> bool, top: nat -> nat)
  {
    var asked := Asked(orders, |orders|, need, Cap(orders, |orders|, need, limit, top), top);
    && got == Sum(PagesOf(orders)) <= need && AllBest(orders, need, limit, fails, top)
    && maxOrder <= Cap(orders, |orders|, need, limit, top)
    && (maxOrder < Cap(orders, |orders|, need, limit, top) ==> got < need && maxOrder < asked)
    && forall o: nat :: maxOrder < o <= asked ==> fails(got, o)
  }

  lemma AllOf(orders: seq<nat>)
    ensures orders[..|orders|] == orders
  {
  }

  /** An order that fails leaves the next smaller one to be asked for. */
  lemma FailsOn(orders: seq<nat>, got: nat, need: nat, limit: nat, maxOrder: nat, fails: (nat, nat) -> bool,
                top: nat -> nat, order: nat)
    requires Underway(orders, got, need, limit, maxOrder, fails, top) && got < need
    requires order == Min(top(need - got), maxOrder) && order > 0 && fails(got, order)
    ensures Underway(orders, got, need, limit, order - 1, fails, top)
  {
    AllOf(orders);
  }

  /** One that does not is the chunk. */
  lemma TakenBest(orders: seq<nat>, got: nat, need: nat, limit: nat, maxOrder: nat, fails: (nat, nat) -> bool,
                  top: nat -> nat, order: nat)
    requires Underway(orders, got, need, limit, maxOrder, fails, top) && got < need
    requires order == Min(top(need - got), maxOrder) && (order > 0 ==> !fails(got, order))
    ensures Best(orders + [order], |orders|, need, limit, fails, top)
    ensures Cap(orders + [order], |orders| + 1, need, limit, top) == maxOrder
  {
    AllOf(orders);
    CapStays(orders, order, |orders|, need, limit, top);
  }

  lemma AllBestOn(orders: seq<nat>, need: nat, limit: nat, fails: (nat, nat) -> bool, top: nat -> nat, order: nat)
    requires AllBest(orders, need, limit, fails, top) && Best(orders + [order], |orders|, need, limit, fails, top)
    ensures AllBest(orders + [order], need, limit, fails, top)
  {
    var more := orders + [order];
    forall i | 0 <= i < |more| ensures Best(more, i, need, limit, fails, top) {
      if i < |orders| { BestStays(orders, order, i, need, limit, fails, top); }
    }
  }

  lemma TakesOn(orders: seq<nat>, got: nat, need: nat, limit: nat, maxOrder: nat, fails: (nat, nat) -> bool,
                top: nat -> nat, order: nat, pages: nat)
    requires Underway(orders, got, need, limit, maxOrder, fails, top) && got < need
    requires order == Min(top(need - got), maxOrder) && (order > 0 ==> !fails(got, order))
    requires pages == Pow2(order) && got + pages <= need
    ensures Underway(orders + [order], got + pages, need, limit, maxOrder, fails, top)
  {
    PagesAppend(orders, order);
    TakenBest(orders, got, need, limit, maxOrder, fails, top, order);
    AllBestOn(orders, need, limit, fails, top, order);
  }

  /** Orders do not rise, and none is above the limit. */
  lemma {:induction false} CapsFall(orders: seq<nat>, i: nat, j: nat, need: nat, limit: nat,
                                    fails: (nat, nat) -> bool, top: nat -> nat)
    requires i <= j <= |orders| && AllBest(orders, need, limit, fails, top)
    ensures Cap(orders, j, need, limit, top) <= Cap(orders, i, need, limit, top)
    decreases j
  {
    if i < j {
      CapsFall(orders, i, j - 1, need, limit, fails, top);
      assert Best(orders, j - 1, need, limit, fails, top);
    }
  }

  lemma {:induction false} RestFalls(orders: seq<nat>, i: nat, j: nat)
    requires i <= j <= |orders|
    ensures Sum(PagesOf(orders[..i])) <= Sum(PagesOf(orders[..j]))
    decreases j
  {
    if i < j {
      RestFalls(orders, i, j - 1);
      assert orders[..j] == orders[..j - 1] + [orders[j - 1]];
      PagesAppend(orders[..j - 1], orders[j - 1]);
    }
  }

  lemma HighBitGrows(m: nat, n: nat)
    requires m <= n
    ensures HighBit(m) <= HighBit(n)
  {
    if m > 0 && Log2(m) > Log2(n) { Pow2Grows(Log2(n) + 1, Log2(m)); }
  }

  lemma BestFalls(orders: seq<nat>, need: nat, limit: nat, fails: (nat, nat) -> bool, i: nat, j: nat)
    requires AllBest(orders, need, limit, fails, HighBit) && i < j < |orders|
    ensures orders[j] <= orders[i] <= limit
  {
    CapsFall(orders, 0, i, need, limit, fails, HighBit);
    CapsFall(orders, i + 1, j, need, limit, fails, HighBit);
    RestFalls(orders, i, j);
    HighBitGrows(RestAt(orders, j, need), RestAt(orders, i, need));
    assert Best(orders, i, need, limit, fails, HighBit) && Best(orders, j, need, limit, fails, HighBit);
  }

  lemma AllFall(orders: seq<nat>, need: nat, limit: nat, fails: (nat, nat) -> bool)
    requires AllBest(orders, need, limit, fails, HighBit)
    ensures NonIncreasing(orders) && forall i :: 0 <= i < |orders| ==> orders[i] <= limit
  {
    forall i | 0 <= i < |orders| ensures orders[i] <= limit {
      assert Best(orders, i, need, limit, fails, HighBit);
      CapsFall(orders, 0, i, need, limit, fails, HighBit);
    }
    forall i, j | 0 <= i < j < |orders| ensures orders[j] <= orders[i] { BestFalls(orders, need, limit, fails, i, j); }
  }

  lemma Fits(rest: nat, maxOrder: nat)
    requires rest > 0
    ensures Pow2(Min(HighBit(rest), maxOrder)) <= rest
  {
    Pow2Grows(Min(Log2(rest), maxOrder), Log2(rest));
  }

  /** One attempt: a chunk of `pages` pages, or a smaller order to ask for next. */
  method AllocOne(orders0: seq<nat>, got0: nat, need: nat, limit: nat, maxOrder0: nat, fails: (nat, nat) -> bool,
                  ghost top: nat -> nat, order: nat, pages: nat)
    returns (orders: seq<nat>, got: nat, maxOrder: nat)
    requires got0 < need && Underway(orders0, got0, need, limit, maxOrder0, fails, top)
    requires order == Min(top(need - got0), maxOrder0) && pages == Pow2(order) && 0 < pages <= need - got0
    ensures got <= need && Underway(orders, got, need, limit, maxOrder, fails, top)
    ensures got > got0 || (got == got0 && maxOrder < maxOrder0)
  {
    if order != 0 && fails(got0, order) {
      FailsOn(orders0, got0, need, limit, maxOrder0, fails, top, order);
      return orders0, got0, Max(0, order - 1);
    }
    TakesOn(orders0, got0, need, limit, maxOrder0, fails, top, order, pages);
    return orders0 + [order], got0 + pages, maxOrder0;
  }

  /** The first loop of abd_alloc_chunks. An order-0 allocation is retried until it succeeds; one of a higher
      order may fail at any time, and then no later chunk is that large again: each chunk is the largest that the rest
      of the need, the limit and the failures so far allow. */
  method AllocOrders(size: nat, limit: nat, fails: (nat, nat) -> bool) returns (orders: seq<nat>)
    requires size > 0
    ensures NonIncreasing(orders) && forall i :: 0 <= i < |orders| ==> orders[i] <= limit
    ensures Sum(PagesOf(orders)) == PagesFor(size)
    ensures AllBest(orders, PagesFor(size), limit, fails, HighBit)
  {
    var need := PagesFor(size);
    var maxOrder: nat, got: nat := limit, 0;
    orders := [];
    while got < need
      invariant got <= need && Underway(orders, got, need, limit, maxOrder, fails, HighBit)
      decreases need - got, maxOrder
    {
      var order: nat := Min(HighBit(need - got), maxOrder);
      Fits(need - got, maxOrder);
      orders, got, maxOrder := AllocOne(orders, got, need, limit, maxOrder, fails, HighBit, order, Pow2(order));
    }
    AllFall(orders, need, limit, fails);
  }

  /** An order of at most `o` failed before chunk `i` was there, with the pages of the first chunks, or some of them. */
  ghost predicate FailedUpTo(orders: seq<nat>, i: nat, o: nat, fails: (nat, nat) -> bool)
    requires i <= |orders|
  {
    exists k: nat, f: nat :: k <= i && 0 < f <= o && fails(Sum(PagesOf(orders[..k])), f)
  }

  lemma {:induction false} CapFailed(orders: seq<nat>, i: nat, need: nat, limit: nat, fails: (nat, nat) -> bool,
                                     top: nat -> nat, o: nat)
    requires i <= |orders| && AllBest(orders, need, limit, fails, top)
    requires Cap(orders, i, need, limit, top) < o <= limit
    ensures FailedUpTo(orders, i, o, fails)
  {
    if orders[i - 1] < Asked(orders, i - 1, need, Cap(orders, i - 1, need, limit, top), top) {
      assert Best(orders, i - 1, need, limit, fails, top);
      assert fails(Sum(PagesOf(orders[..i - 1])), orders[i - 1] + 1);
    } else {
      CapFailed(orders, i - 1, need, limit, fails, top, o);
      var k: nat, f: nat :| k <= i - 1 && 0 < f <= o && fails(Sum(PagesOf(orders[..k])), f);
    }
  }

  /** Each chunk is the largest that fits below the orders that have failed: a larger one that fits, and is within the
      limit, has failed itself or was not asked for because a smaller one had. */
  lemma LargestLeft(orders: seq<nat>, i: nat, need: nat, limit: nat, fails: (nat, nat) -> bool, o: nat)
    requires i < |orders| && AllBest(orders, need, limit, fails, HighBit)
    requires orders[i] < o <= limit && Sum(PagesOf(orders[..i])) + Pow2(o) <= need
    ensures FailedUpTo(orders, i, o, fails)
  {
    var rest := RestAt(orders, i, need);
    assert Best(orders, i, need, limit, fails, HighBit);
    if o > Log2(rest) { Pow2Grows(Log2(rest) + 1, o); }
    if o > Cap(orders, i, need, limit, HighBit) {
      CapFailed(orders, i, need, limit, fails, HighBit, o);
    } else {
      assert fails(Sum(PagesOf(orders[..i])), o);
    }
  }

  /** Without failures each chunk is the largest that fits. */
  lemma {:induction false} UnfailedCap(orders: seq<nat>, i: nat, need: nat, limit: nat, fails: (nat, nat) -> bool,
                                       top: nat -> nat)
    requires i <= |orders| && AllBest(orders, need, limit, fails, top) && forall got: nat, o: nat :: !fails(got, o)
    ensures Cap(orders, i, need, limit, top) == limit
  {
    if i > 0 {
      UnfailedCap(orders, i - 1, need, limit, fails, top);
      assert Best(orders, i - 1, need, limit, fails, top);
      assert !fails(Sum(PagesOf(orders[..i - 1])), Asked(orders, i - 1, need, limit, top));
    }
  }

  lemma UnfailedLargest(orders: seq<nat>, i: nat, need: nat, limit: nat, fails: (nat, nat) -> bool)
    requires i < |orders| && AllBest(orders, need, limit, fails, HighBit) && forall got: nat, o: nat :: !fails(got, o)
    ensures var rest := need - Sum(PagesOf(orders[..i])); rest > 0 && orders[i] == Min(Log2(rest), limit)
  {
    UnfailedCap(orders, i, need, limit, fails, HighBit);
    assert Best(orders, i, need, limit, fails, HighBit);
    assert !fails(Sum(PagesOf(orders[..i])), Asked(orders, i, need, limit, HighBit));
  }

  /** After an order has failed no later chunk is that large. */
  lemma FailedBounds(orders: seq<nat>, i: nat, j: nat, need: nat, limit: nat, fails: (nat, nat) -> bool,
                     top: nat -> nat)
    requires i < j < |orders| && AllBest(orders, need, limit, fails, top)
    requires orders[i] < Asked(orders, i, need, Cap(orders, i, need, limit, top), top)
    ensures orders[j] <= orders[i]
  {
    CapsFall(orders, i + 1, j, need, limit, fails, top);
    assert Best(orders, j, need, limit, fails, top);
  }

  /** The table covers the buffer: every entry is its folio's size but the last, which may be short. */
  ghost predicate Covers(orders: seq<nat>, lengths: seq<nat>, size: nat) {
    && |lengths| == |orders| && Sum(lengths) == size
    && (forall i :: 0 <= i < |orders| - 1 ==> lengths[i] == PAGE * Pow2(orders[i]))
    && (orders != [] ==> 0 < lengths[|orders| - 1] <= PAGE * Pow2(orders[|orders| - 1]))
  }

  /** A shorter prefix of chunks has fewer pages. */
  lemma {:induction false} SumBelow(pages: seq<nat>, k: nat)
    requires k < |pages| && forall i :: 0 <= i < |pages| ==> pages[i] >= 1
    ensures Sum(pages[..k]) < Sum(pages)
    decreases |pages|
  {
    var n := |pages| - 1;
    if k < n {
      SumBelow(pages[..n], k);
      assert pages[..n][..k] == pages[..k];
    }
  }

  lemma PagesCover(size: nat)
    requires size > 0
    ensures PAGE * (PagesFor(size) - 1) < size <= PAGE * PagesFor(size)
  {
  }

  /** Another whole chunk after the first `k` fits short of the last page. */
  lemma ChunkFits(pages: seq<nat>, k: nat, size: nat)
    requires k < |pages| && size > 0 && Sum(pages) == PagesFor(size) && forall i :: 0 <= i < |pages| ==> pages[i] >= 1
    ensures k + 1 < |pages| ==> PAGE * Sum(pages[..k + 1]) < size
    ensures PAGE * Sum(pages[..k]) < size <= PAGE * Sum(pages)
    ensures Sum(pages[..k + 1]) == Sum(pages[..k]) + pages[k]
  {
    PagesCover(size);
    assert pages[..k + 1][..k] == pages[..k];
    SumBelow(pages, k);
    if k + 1 < |pages| { SumBelow(pages, k + 1); }
  }

  /** The second loop, over folios of so many pages: each entry takes its folio's size or what remains of the buffer. */
  method FillPages(pages: seq<nat>, size: nat) returns (lengths: seq<nat>)
    requires size > 0 && Sum(pages) == PagesFor(size) && forall i :: 0 <= i < |pages| ==> pages[i] >= 1
    ensures |lengths| == |pages| && Sum(lengths) == size
    ensures forall i :: 0 <= i < |pages| - 1 ==> lengths[i] == PAGE * pages[i]
    ensures pages != [] ==> 0 < lengths[|pages| - 1] <= PAGE * pages[|pages| - 1]
  {
    lengths := [];
    var remaining := size;
    for i := 0 to |pages|
      invariant |lengths| == i && Sum(lengths) + remaining == size
      invariant forall j :: 0 <= j < i && j < |pages| - 1 ==> lengths[j] == PAGE * pages[j]
      invariant i < |pages| ==> remaining == size - PAGE * Sum(pages[..i])
      invariant 0 < i == |pages| ==> remaining == 0 && 0 < lengths[i - 1] <= PAGE * pages[i - 1]
    {
      ChunkFits(pages, i, size);
      assert pages[..|pages|] == pages;
      var length := Min(PAGE * pages[i], remaining);
      SumAppend(lengths, length);
      lengths := lengths + [length];
      remaining := remaining - length;
    }
  }

  method FillTable(orders: seq<nat>, size: nat) returns (lengths: seq<nat>)
    requires size > 0 && Sum(PagesOf(orders)) == PagesFor(size)
    ensures Covers(orders, lengths, size)
  {
    lengths := FillPages(PagesOf(orders), size);
  }

  /** abd_alloc_chunks. */
  method AllocChunks(size: nat, limit: nat, fails: (nat, nat) -> bool) returns (orders: seq<nat>, lengths: seq<nat>)
    requires size > 0
    ensures NonIncreasing(orders) && forall i :: 0 <= i < |orders| ==> orders[i] <= limit
    ensures Sum(PagesOf(orders)) == PagesFor(size)
    ensures AllBest(orders, PagesFor(size), limit, fails, HighBit)
    ensures Covers(orders, lengths, size)
  {
    orders := AllocOrders(size, limit, fails);
    lengths := FillTable(orders, size);
  }

  // ----- abd_lru_index -----

  datatype Range = Range(first: nat, order: nat)

  /** A task in the compare-and-swap loop: outside it, or with the value it read. */
  datatype Asking = Outside | Read(order: nat, seen: nat)

  datatype Indices = Indices(next: nat, asking: map<nat, Asking>, given: seq<Range>)

  /** P2ROUNDUP(x, 1 << order). */
  function RoundUp(x: nat, order: nat): nat { AlignUp(x, Pow2(order)) }

  function Of(s: Indices, t: nat): Asking { if t in s.asking then s.asking[t] else Outside }

  datatype Ask = Enter(order: nat) | Swap

  predicate CanAsk(s: Indices, t: nat, a: Ask) { if a.Enter? then Of(s, t).Outside? else Of(s, t).Read? }

  /** Reading the counter, or one compare-and-swap: on a miss the counter is read again. */
  function Ask1(s: Indices, t: nat, a: Ask): Indices {
    match a
    case Enter(order) => s.(asking := s.asking[t := Read(order, s.next)])
    case Swap =>
      if Of(s, t).Outside? then s
      else
        var Read(order, seen) := Of(s, t);
        var first := RoundUp(seen, order);
        if s.next == seen then
          Indices(first + Pow2(order), s.asking[t := Outside], s.given + [Range(first, order)])
        else s.(asking := s.asking[t := Read(order, s.next)])
  }

  function AskAll(run: seq<(nat, Ask)>): Indices {
    if run == [] then Indices(0, map[], [])
    else Ask1(AskAll(run[..|run| - 1]), run[|run| - 1].0, run[|run| - 1].1)
  }

  predicate Before(r: Range, q: Range) { r.first + Pow2(r.order) <= q.first }

  ghost predicate IndexInv(s: Indices) {
    && (forall i, j :: 0 <= i < j < |s.given| ==> Before(s.given[i], s.given[j]))
    && (forall r :: r in s.given ==> r.first % Pow2(r.order) == 0 && r.first + Pow2(r.order) <= s.next)
    && (forall t :: t in s.asking && s.asking[t].Read? ==> s.asking[t].seen <= s.next)
  }

  /** Under any interleaving of any number of tasks: the ranges handed out are aligned to their size, each lies
      wholly after all that were handed out before it, and none reaches past the counter. */
  lemma {:induction false} IndicesApart(run: seq<(nat, Ask)>)
    ensures IndexInv(AskAll(run))
  {
    if run != [] { IndicesApart(run[..|run| - 1]); }
  }

  /** A compare-and-swap fails only because another task got a range in between. */
  lemma MissedMeansMoved(run: seq<(nat, Ask)>, t: nat)
    requires CanAsk(AskAll(run), t, Swap)
    ensures var s := AskAll(run);
            var s' := Ask1(s, t, Swap);
            || |s'.given| == |s.given| + 1
            || (s'.given == s.given && Of(s, t).seen < s.next && Of(s', t) == Read(Of(s, t).order, s.next))
  {
    IndicesApart(run);
  }
}
