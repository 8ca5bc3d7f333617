/** Small vocabulary shared by the other modules. */
module Basics {
  datatype Option<+T> = None | Some(value: T)

  function Min(a: int, b: int): int { if a <= b then a else b }

  function Max(a: int, b: int): int { if a >= b then a else b }

  function Pow2(n: nat): (r: nat)
    ensures r >= 1
  {
    if n == 0 then 1 else 2 * Pow2(n - 1)
  }

  function Sum(s: seq<nat>): nat { if s == [] then 0 else Sum(s[..|s| - 1]) + s[|s| - 1] }

  /** The least multiple of `a` that is at least `x`. */
  function AlignUp(x: nat, a: nat): (r: nat)
    requires a >= 1
    ensures x <= r < x + a && r % a == 0
  {
    AlignUpOk(x, a);
    (x + a - 1) / a * a
  }

  lemma AlignUpOk(x: nat, p: nat)
    requires p >= 1
    ensures x <= (x + p - 1) / p * p < x + p && (x + p - 1) / p * p % p == 0
  {
    var q := (x + p - 1) / p;
    assert x + p - 1 == q * p + (x + p - 1) % p;
    MulMod(q, p);
  }

  lemma {:induction false} MulMod(q: nat, p: nat)
    requires p >= 1
    ensures q * p % p == 0
  {
    if q > 0 {
      MulMod(q - 1, p);
      assert q * p == (q - 1) * p + p;
      AddMod((q - 1) * p, p);
    }
  }

  lemma AddMod(x: nat, p: nat)
    requires p >= 1
    ensures (x + p) % p == x % p
  {
    var q, r := x / p, x % p;
    assert x + p == (q + 1) * p + r;
    DivUnique(x + p, p, q + 1, r);
  }

  lemma DivUnique(x: nat, p: nat, q: nat, r: nat)
    requires p >= 1 && x == q * p + r && r < p
    ensures x % p == r
  {
    var d := q - x / p;
    assert d * p == x % p - r;
    MulBounds(d, p);
  }

  lemma MulBounds(d: int, p: int)
    requires p >= 0
    ensures (d >= 1 ==> d * p >= p) && (d <= -1 ==> d * p <= -p)
  {
  }

  /** Multiples of `a` less than `a` apart in one direction are in order. */
  lemma MultiplesOrdered(r: nat, h: nat, a: nat)
    requires a >= 1 && r % a == 0 && h % a == 0 && r < h + a
    ensures r <= h
  {
    var d := r / a - h / a;
    assert r == r / a * a && h == h / a * a;
    assert d * a == r - h;
    MulBounds(d, a);
  }

  lemma {:induction false} Pow2Grows(a: nat, b: nat)
    requires a <= b
    ensures Pow2(a) <= Pow2(b)
    decreases b
  {
    if a < b { Pow2Grows(a, b - 1); }
  }

  lemma MulAdds(a: int, b: int, c: int)
    ensures (a + b) * c == a * c + b * c
  {
  }

  lemma MulNonneg(a: int, b: int)
    requires a >= 0 && b >= 0
    ensures a * b >= 0
  {
  }

  lemma UpToDiv(x: nat, size: nat, i: nat)
    requires size > 0
    ensures i <= x / size <==> i * size <= x
  {
    var q := x / size;
    assert q * size <= x < q * size + size;
    MulAdds(i, q - i, size);
    MulBounds(q - i, size);
  }
}
