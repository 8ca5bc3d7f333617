module BandHeights {
  /**
   bandHeights of packages/fragview/pixmap.go: page counts to pixel band heights that add up to exactly the
   height. Shares are exact rationals here: the share of a class is its count times the height over the total, so
   its whole part is the quotient and its fraction is ordered by the remainder.
   */
  import opened Basics

  lemma {:induction false} SumUpdate(s: seq<nat>, i: nat, x: nat)
    requires i < |s|
    ensures Sum(s[i := x]) == Sum(s) + x - s[i]
  {
    var n := |s| - 1;
    if i < n {
      SumUpdate(s[..n], i, x);
      assert s[i := x][..n] == s[..n][i := x];
    } else {
      assert s[i := x][..n] == s[..n];
    }
  }

  lemma {:induction false} SumSome(s: seq<nat>)
    requires Sum(s) > 0
    ensures exists i :: 0 <= i < |s| && s[i] > 0
  {
    var n := |s| - 1;
    if s[n] == 0 {
      SumSome(s[..n]);
      var i :| 0 <= i < n && s[..n][i] > 0;
      assert s[i] > 0;
    }
  }

  /** How many of the classes are present. */
  function Present(sum: seq<nat>): nat {
    if sum == [] then 0 else Present(sum[..|sum| - 1]) + (if sum[|sum| - 1] > 0 then 1 else 0)
  }

  /** Bands of at most `m` each, and none for an absent class, take no more than the present classes times `m`. */
  lemma {:induction false} SumAtMost(sum: seq<nat>, out: seq<nat>, m: nat)
    requires |out| == |sum| && forall c :: 0 <= c < |sum| ==> out[c] <= (if sum[c] > 0 then m else 0)
    ensures Sum(out) <= Present(sum) * m
  {
    if sum != [] {
      var n := |sum| - 1;
      SumAtMost(sum[..n], out[..n], m);
      MulAdds(Present(sum[..n]), if sum[n] > 0 then 1 else 0, m);
    }
  }

  /** The height a class starts with: none if it is absent, otherwise the least that is no less than the minimum and
      less than a pixel short of its share of the height. */
  predicate Wants(x: nat, h: nat, known: nat, minBand: nat, w: nat) {
    if x == 0 then w == 0
    else w >= minBand && x * h < (w + 1) * known && (w > minBand ==> w * known <= x * h)
  }

  ghost predicate Wanted(sum: seq<nat>, h: nat, known: nat, minBand: nat, want: seq<nat>) {
    |want| == |sum| && forall c :: 0 <= c < |sum| ==> Wants(sum[c], h, known, minBand, want[c])
  }

  /** It is the whole part of the share, or the minimum. */
  lemma WantsIff(x: nat, h: nat, known: nat, minBand: nat, w: nat)
    requires known > 0 && x > 0
    ensures Wants(x, h, known, minBand, w) <==> w == Max(x * h / known, minBand)
  {
    UpToDiv(x * h, known, w);
    UpToDiv(x * h, known, w + 1);
  }

  /** The heights fall short of the shares by less than one pixel per present class. */
  lemma {:induction false} WantedNear(sum: seq<nat>, h: nat, known: nat, minBand: nat, want: seq<nat>)
    requires known > 0 && Wanted(sum, h, known, minBand, want)
    ensures Sum(sum) * h <= Sum(want) * known + Present(sum) * (known - 1)
  {
    if sum != [] {
      var n := |sum| - 1;
      WantedNear(sum[..n], h, known, minBand, want[..n]);
      assert Wants(sum[n], h, known, minBand, want[n]);
      MulAdds(want[n], 1, known);
      MulAdds(Sum(sum[..n]), sum[n], h);
      MulAdds(Sum(want[..n]), want[n], known);
      MulAdds(Present(sum[..n]), if sum[n] > 0 then 1 else 0, known - 1);
    }
  }

  /** Less than `h` in whole parts, and less than one short of the height for each of `p`, do not go together. */
  lemma TooMuch(t: nat, p: nat, h: nat, known: nat)
    requires t + p <= h && p > 0 && known > 0
    ensures h * known > t * known + p * (known - 1)
  {
    var d := h - t - p;
    MulAdds(t + p, d, known);
    MulAdds(t, p, known);
    MulNonneg(d, known);
    MulAdds(known - 1, 1, p);
    assert p * (known - 1) == p * known - p;
  }

  /** So what is left to hand out is less than one pixel per present class. */
  lemma LeftoverSmall(sum: seq<nat>, h: nat, known: nat, minBand: nat, want: seq<nat>)
    requires known == Sum(sum) > 0 && Wanted(sum, h, known, minBand, want)
    ensures Sum(want) + Present(sum) > h
  {
    var t, p := Sum(want), Present(sum);
    WantedNear(sum, h, known, minBand, want);
    SumAtMostAll(sum);
    if t + p <= h { TooMuch(t, p, h, known); }
  }

  lemma {:induction false} SumAtMostAll(sum: seq<nat>)
    ensures Sum(sum) > 0 ==> Present(sum) > 0
  {
    if sum != [] { SumAtMostAll(sum[..|sum| - 1]); }
  }

  // ----- the loops -----

  /** The tallest band above the minimum, the first of them; height 0 if none is above it. */
  method Tallest(out: seq<nat>, minBand: nat) returns (tallest: nat, n: nat)
    ensures n == 0 ==> forall c :: 0 <= c < |out| ==> out[c] <= minBand
    ensures n > 0 ==> tallest < |out| && out[tallest] == n > minBand &&
                      forall c :: 0 <= c < |out| ==> out[c] <= n && (c < tallest ==> out[c] < n)
  {
    tallest, n := 0, 0;
    for c := 0 to |out|
      invariant n == 0 ==> forall d :: 0 <= d < c ==> out[d] <= minBand
      invariant n > 0 ==> tallest < c && out[tallest] == n > minBand &&
                          forall d :: 0 <= d < c ==> out[d] <= n && (d < tallest ==> out[d] < n)
    {
      if out[c] > minBand && out[c] > n {
        tallest, n := c, out[c];
      }
    }
  }

  method FirstPositive(out: seq<nat>) returns (c: nat)
    requires Sum(out) > 0
    ensures c < |out| && out[c] > 0 && forall d :: 0 <= d < c ==> out[d] == 0
  {
    SumSome(out);
    c := 0;
    while out[c] == 0
      invariant c < |out| && forall d :: 0 <= d < c ==> out[d] == 0
      decreases |out| - c
    {
      c := c + 1;
    }
  }

  /** A band that was cut is no shorter than any earlier one still above the minimum, and at most one pixel shorter
      than any later one. */
  ghost predicate CutEvenly(was: seq<nat>, out: seq<nat>, minBand: nat)
    requires |was| == |out|
  {
    forall c, d :: 0 <= c < |out| && 0 <= d < |out| && out[c] < was[c] ==>
      out[d] <= out[c] + (if d > c then 1 else 0) || out[d] <= minBand
  }

  /** A band is cut below the minimum only when nothing is left of the bands before it. */
  ghost predicate FirstPays(sum: seq<nat>, out: seq<nat>, minBand: nat)
    requires |sum| == |out|
  {
    forall c, d :: 0 <= c < d < |out| && sum[d] > 0 && out[d] < minBand ==> out[c] == 0
  }

  lemma TallestCut(sum: seq<nat>, was: seq<nat>, out: seq<nat>, minBand: nat, t: nat)
    requires |was| == |out| == |sum| && CutEvenly(was, out, minBand) && FirstPays(sum, out, minBand)
    requires t < |out| && out[t] > minBand
    requires forall c :: 0 <= c < |out| ==> out[c] <= out[t] && (c < t ==> out[c] < out[t])
    ensures var cut := out[t := out[t] - 1]; CutEvenly(was, cut, minBand) && FirstPays(sum, cut, minBand)
  {
  }

  lemma FirstCut(sum: seq<nat>, was: seq<nat>, out: seq<nat>, minBand: nat, f: nat)
    requires |was| == |out| == |sum| && CutEvenly(was, out, minBand) && FirstPays(sum, out, minBand)
    requires f < |out| && out[f] > 0 && forall c :: 0 <= c < |out| ==> out[c] <= minBand && (c < f ==> out[c] == 0)
    ensures var cut := out[f := out[f] - 1]; CutEvenly(was, cut, minBand) && FirstPays(sum, cut, minBand)
  {
  }

  /** Bands are only cut, minimums that fit are kept, and nothing is cut that fits. */
  ghost predicate CutSoFar(sum: seq<nat>, was: seq<nat>, out: seq<nat>, h: nat, minBand: nat)
    requires |was| == |out| == |sum|
  {
    && (forall c :: 0 <= c < |sum| ==> out[c] <= was[c])
    && (Present(sum) * minBand <= h ==> forall c :: 0 <= c < |sum| && sum[c] > 0 ==> out[c] >= minBand)
    && CutEvenly(was, out, minBand) && FirstPays(sum, out, minBand)
  }

  /** One pixel of overshoot is taken from the first of the tallest bands above the minimum, or from the first band if
      none is above it. */
  method CutOne(sum: seq<nat>, was: seq<nat>, out: seq<nat>, h: nat, minBand: nat) returns (cut: seq<nat>)
    requires |was| == |out| == |sum| && CutSoFar(sum, was, out, h, minBand) && Sum(out) > h
    requires forall c :: 0 <= c < |sum| && sum[c] == 0 ==> was[c] == 0
    ensures |cut| == |sum| && CutSoFar(sum, was, cut, h, minBand) && Sum(cut) == Sum(out) - 1
  {
    var c, n := Tallest(out, minBand);
    if n == 0 {
      SumAtMost(sum, out, minBand);
      c := FirstPositive(out);
      FirstCut(sum, was, out, minBand, c);
    } else {
      TallestCut(sum, was, out, minBand, c);
    }
    SumUpdate(out, c, out[c] - 1);
    cut := out[c := out[c] - 1];
  }

  /** The first loop: what the minimums overshoot is taken from the tallest bands, and only when none is above the
      minimum from the first. */
  method Trim(sum: seq<nat>, was: seq<nat>, h: nat, minBand: nat) returns (out: seq<nat>)
    requires |was| == |sum|
    requires forall c :: 0 <= c < |sum| ==>
               (sum[c] == 0 ==> was[c] == 0) && (sum[c] > 0 ==> was[c] >= minBand)
    ensures |out| == |sum| && Sum(out) == Min(Sum(was), h) && (Sum(was) <= h ==> out == was)
    ensures forall c :: 0 <= c < |sum| ==> out[c] <= was[c]
    ensures Present(sum) * minBand <= h ==> forall c :: 0 <= c < |sum| && sum[c] > 0 ==> out[c] >= minBand
    ensures CutEvenly(was, out, minBand) && FirstPays(sum, out, minBand)
  {
    out := was;
    while Sum(out) > h
      invariant |out| == |sum| && CutSoFar(sum, was, out, h, minBand)
      invariant Sum(out) >= Min(Sum(was), h) && (Sum(was) <= h ==> out == was)
      decreases Sum(out)
    {
      out := CutOne(sum, was, out, h, minBand);
    }
  }

  ghost predicate Below(s: seq<nat>, n: nat) { forall i :: 0 <= i < |s| ==> s[i] < n }

  ghost predicate ByRest(fracs: seq<nat>, rest: seq<nat>)
    requires Below(fracs, |rest|)
  {
    forall i, j :: 0 <= i < j < |fracs| ==> rest[fracs[i]] >= rest[fracs[j]]
  }

  ghost predicate Distinct(s: seq<nat>) { forall i, j :: 0 <= i < j < |s| ==> s[i] != s[j] }

  /** sort.Slice with the larger fraction first; where it puts equal ones is its own affair. */
  method Insert(fracs: seq<nat>, rest: seq<nat>, c: nat) returns (r: seq<nat>)
    requires c < |rest| && Below(fracs, |rest|) && ByRest(fracs, rest) && Distinct(fracs) && c !in fracs
    ensures |r| == |fracs| + 1 && (forall x :: x in r <==> x in fracs || x == c)
    ensures Below(r, |rest|) && ByRest(r, rest) && Distinct(r)
  {
    var i := 0;
    while i < |fracs| && rest[fracs[i]] > rest[c]
      invariant 0 <= i <= |fracs| && forall k :: 0 <= k < i ==> rest[fracs[k]] > rest[c]
    {
      i := i + 1;
    }
    r := fracs[..i] + [c] + fracs[i..];
    Inserted(fracs, rest, c, i, r);
  }

  lemma Inserted(fracs: seq<nat>, rest: seq<nat>, c: nat, i: nat, r: seq<nat>)
    requires c < |rest| && Below(fracs, |rest|) && ByRest(fracs, rest) && Distinct(fracs) && c !in fracs
    requires i <= |fracs| && r == fracs[..i] + [c] + fracs[i..]
    requires forall k :: 0 <= k < i ==> rest[fracs[k]] >= rest[c]
    requires i < |fracs| ==> rest[fracs[i]] <= rest[c]
    ensures |r| == |fracs| + 1 && Below(r, |rest|) && ByRest(r, rest) && Distinct(r)
    ensures forall x :: x in r <==> x in fracs || x == c
  {
    forall k | 0 <= k < |r| ensures r[k] == (if k < i then fracs[k] else if k == i then c else fracs[k - 1]) { }
    forall k | 0 <= k < |fracs| ensures fracs[k] == (if k < i then r[k] else r[k + 1]) { }
    forall k | i <= k < |fracs| ensures rest[fracs[k]] <= rest[c] { }
  }

  /** The second loop: one pixel each to the classes with the largest fractions. */
  method Spread(was: seq<nat>, fracs: seq<nat>, h: nat) returns (out: seq<nat>)
    requires Below(fracs, |was|) && Distinct(fracs) && Sum(was) <= h
    requires Sum(was) < h ==> h - Sum(was) <= |fracs|
    ensures |out| == |was| && Sum(out) == h
    ensures forall c :: 0 <= c < |was| ==>
              out[c] == was[c] + (if c in fracs[..Min(h - Sum(was), |fracs|)] then 1 else 0)
  {
    out := was;
    var i, total := 0, Sum(was);
    assert fracs[..0] == [];
    while total < h
      invariant 0 <= i && total == Sum(was) + i <= h && i <= |fracs|
      invariant |out| == |was| && Sum(out) == total
      invariant forall c :: 0 <= c < |was| ==> out[c] == was[c] + (if c in fracs[..i] then 1 else 0)
    {
      SmallMod(i, |fracs|);
      var c := fracs[i % |fracs|];
      assert c == fracs[i] && c !in fracs[..i] && fracs[..i + 1] == fracs[..i] + [c];
      SumUpdate(out, c, out[c] + 1);
      out := out[c := out[c] + 1];
      i, total := i + 1, total + 1;
    }
  }

  lemma SmallMod(i: nat, n: nat)
    requires i < n
    ensures i % n == i
  {
  }

  /** The present classes, the larger fraction first. */
  method Fractions(sum: seq<nat>, h: nat, known: nat) returns (fracs: seq<nat>, rest: seq<nat>)
    requires known > 0
    ensures |rest| == |sum| && forall c :: 0 <= c < |sum| ==> rest[c] == sum[c] * h % known
    ensures |fracs| == Present(sum) && Distinct(fracs) && (forall c :: c in fracs <==> 0 <= c < |sum| && sum[c] > 0)
    ensures Below(fracs, |sum|) && ByRest(fracs, rest)
  {
    rest := seq(|sum|, c requires 0 <= c < |sum| => sum[c] * h % known);
    fracs := [];
    for c := 0 to |sum|
      invariant |fracs| == Present(sum[..c]) && Distinct(fracs) &&
                (forall d :: d in fracs <==> 0 <= d < c && sum[d] > 0)
      invariant Below(fracs, |sum|) && ByRest(fracs, rest)
    {
      assert sum[..c + 1][..c] == sum[..c];
      if sum[c] > 0 {
        fracs := Insert(fracs, rest, c);
      }
    }
    assert sum[..|sum|] == sum;
  }

  /** Each band is what the class wants, or one pixel more, and the largest fractions of shares get that pixel. */
  ghost predicate Rounded(sum: seq<nat>, h: nat, known: nat, want: seq<nat>, out: seq<nat>)
    requires known > 0 && |want| == |out| == |sum|
  {
    && (forall c :: 0 <= c < |sum| ==> want[c] <= out[c] <= want[c] + (if sum[c] > 0 then 1 else 0))
    && forall c, d :: 0 <= c < |sum| && 0 <= d < |sum| && sum[d] > 0 && out[c] > want[c] && out[d] == want[d] ==>
         sum[c] * h % known >= sum[d] * h % known
  }

  /** Bands are only cut: evenly, and below the minimum from the first on. */
  ghost predicate Cut(sum: seq<nat>, minBand: nat, want: seq<nat>, out: seq<nat>)
    requires |want| == |out| == |sum|
  {
    && (forall c :: 0 <= c < |sum| ==> out[c] <= want[c])
    && CutEvenly(want, out, minBand) && FirstPays(sum, out, minBand)
  }

  /** The band of a present class, without overshoot: within one pixel of its exact share, or the minimum, or a pixel
      above that. */
  predicate Near(x: nat, h: nat, known: nat, minBand: nat, n: nat) {
    && minBand <= n && x * h < (n + 1) * known
    && ((n - 1) * known <= x * h || n == minBand || n == minBand + 1)
  }

  lemma OneMoreIsNear(x: nat, h: nat, known: nat, minBand: nat, w: nat, n: nat)
    requires x > 0 && Wants(x, h, known, minBand, w) && w <= n <= w + 1
    ensures Near(x, h, known, minBand, n)
  {
    MulAdds(w, 1, known);
    MulAdds(w + 1, 1, known);
    MulAdds(w - 1, 1, known);
  }

  lemma {:induction false} NonePresent(sum: seq<nat>)
    requires Sum(sum) == 0
    ensures forall c :: 0 <= c < |sum| ==> sum[c] == 0
  {
    if sum != [] { NonePresent(sum[..|sum| - 1]); }
  }

  /** bandHeights, for a total that is the sum of the counts, as its callers pass it. With no class present there is no
      band. Otherwise the heights add up to exactly `h`; an absent class has none; a present one has the minimum if the
      minimums fit. If what the classes want does not overshoot, each band is within a pixel of its share or the
      minimum, or one more; if it does, bands are only cut. */
  method BandHeights(sum: seq<nat>, known: nat, h: nat, minBand: nat) returns (out: seq<nat>, ghost want: seq<nat>)
    requires known == Sum(sum)
    ensures |out| == |sum| && (known > 0 ==> Sum(out) == h && Wanted(sum, h, known, minBand, want))
    ensures forall c :: 0 <= c < |sum| && sum[c] == 0 ==> out[c] == 0
    ensures Present(sum) * minBand <= h ==> forall c :: 0 <= c < |sum| && sum[c] > 0 ==> out[c] >= minBand
    ensures known > 0 && Sum(want) <= h ==>
              && Rounded(sum, h, known, want, out)
              && forall c :: 0 <= c < |sum| && sum[c] > 0 ==> Near(sum[c], h, known, minBand, out[c])
    ensures known > 0 && Sum(want) > h ==> Cut(sum, minBand, want, out)
  {
    if known == 0 {
      NonePresent(sum);
      return seq(|sum|, _ => 0), [];
    }
    var fracs, rest := Fractions(sum, h, known);
    var base := seq(|sum|, c requires 0 <= c < |sum| => if sum[c] == 0 then 0 else Max(sum[c] * h / known, minBand));
    want := base;
    forall c | 0 <= c < |sum| && sum[c] > 0 ensures Wants(sum[c], h, known, minBand, base[c]) {
      WantsIff(sum[c], h, known, minBand, base[c]);
    }
    LeftoverSmall(sum, h, known, minBand, base);
    var cut := Trim(sum, base, h, minBand);
    ghost var r := Min(h - Sum(cut), |fracs|);
    out := Spread(cut, fracs, h);
    Bounds(sum, minBand, fracs, r, cut, out, base);
    if Sum(base) <= h {
      RoundedUp(sum, h, known, fracs, rest, r, base, out);
      forall c | 0 <= c < |sum| && sum[c] > 0 ensures Near(sum[c], h, known, minBand, out[c]) {
        OneMoreIsNear(sum[c], h, known, minBand, base[c], out[c]);
      }
    } else {
      NothingLeft(fracs, cut, out);
    }
  }

  /** Handing out the rest gives nothing to an absent class and takes nothing from anyone. */
  lemma Bounds(sum: seq<nat>, minBand: nat, fracs: seq<nat>, r: nat, cut: seq<nat>, out: seq<nat>, base: seq<nat>)
    requires |cut| == |out| == |base| == |sum| && r <= |fracs|
    requires forall c :: 0 <= c < |sum| ==> cut[c] <= base[c] && (sum[c] == 0 ==> base[c] == 0)
    requires forall c :: c in fracs ==> 0 <= c < |sum| && sum[c] > 0
    requires forall c :: 0 <= c < |sum| ==> out[c] == cut[c] + (if c in fracs[..r] then 1 else 0)
    ensures forall c :: 0 <= c < |sum| ==> cut[c] <= out[c] <= cut[c] + (if sum[c] > 0 then 1 else 0)
    ensures forall c :: 0 <= c < |sum| && sum[c] == 0 ==> out[c] == 0
  {
    forall c | 0 <= c < |sum| && c in fracs[..r] ensures sum[c] > 0 { assert c in fracs; }
  }

  lemma NothingLeft(fracs: seq<nat>, cut: seq<nat>, out: seq<nat>)
    requires |out| == |cut| && forall c :: 0 <= c < |cut| ==> out[c] == cut[c] + (if c in fracs[..0] then 1 else 0)
    ensures out == cut
  {
  }

  /** The classes at the front of the sorted list have no smaller fractions than the others. */
  lemma RoundedUp(sum: seq<nat>, h: nat, known: nat, fracs: seq<nat>, rest: seq<nat>, r: nat, base: seq<nat>,
                  out: seq<nat>)
    requires known > 0 && |rest| == |out| == |base| == |sum| && r <= |fracs|
    requires forall c :: 0 <= c < |sum| ==> rest[c] == sum[c] * h % known
    requires Below(fracs, |sum|) && (forall c :: c in fracs <==> 0 <= c < |sum| && sum[c] > 0) && ByRest(fracs, rest)
    requires forall c :: 0 <= c < |sum| ==> out[c] == base[c] + (if c in fracs[..r] then 1 else 0)
    ensures forall c, d :: 0 <= c < |sum| && 0 <= d < |sum| && sum[d] > 0 && out[c] > base[c] && out[d] == base[d] ==>
              sum[c] * h % known >= sum[d] * h % known
  {
    forall c, d | 0 <= c < |sum| && 0 <= d < |sum| && sum[d] > 0 && out[c] > base[c] && out[d] == base[d]
      ensures rest[c] >= rest[d]
    {
      assert c in fracs[..r] && d in fracs;
      assert forall k :: 0 <= k < r ==> fracs[k] == fracs[..r][k] && fracs[k] in fracs[..r];
      var i :| 0 <= i < r && fracs[i] == c;
      var j :| 0 <= j < |fracs| && fracs[j] == d;
    }
  }
}
