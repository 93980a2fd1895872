/** Fixed-width arithmetic of the data plane: P4 `bit<W>` values are naturals
    below 2^W, and every operator wraps at its own width. */
module MovingAverage {

  function Pow2(n: nat): (p: nat)
    ensures p > 0
  {
    if n == 0 then 1 else 2 * Pow2(n - 1)
  }

  function Min(a: int, b: int): int { if a < b then a else b }

  function Max(a: int, b: int): int { if a < b then b else a }

  /** The quotient of naturals, described without division. */
  function Quotient(x: nat, p: nat): (q: nat)
    requires p > 0
    ensures p * q <= x < p * q + p
  {
    var q := x / p;
    assert x == p * q + x % p;
    assert q >= 0 by { if q < 0 { MulMonotone(p, q, -1); } }
    q
  }

  function Remainder(v: int, p: nat): (r: nat)
    requires p > 0
    ensures r < p
    ensures 0 <= v < p ==> r == v
  {
    assert 0 <= v < p ==> v % p == v;
    v % p
  }

  /** The value `v` cut down to `width` bits, as a P4 cast or operator does. */
  function Wrap(v: int, width: nat): (r: nat)
    ensures r < Pow2(width)
    ensures 0 <= v < Pow2(width) ==> r == v
  {
    Remainder(v, Pow2(width))
  }

  /** `(history << k) - history + current` with every operator evaluated modulo
      `m`; here p = 2^k. */
  function WeightedSum(m: nat, p: nat, history: nat, current: nat): nat
    requires m > 0
  {
    Remainder(Remainder(Remainder(p * history, m) - history, m) + current, m)
  }

  /** `((history << k) - history + current) >> k` in `width + k + 1` bits (the
      *_EXTENDED widths). */
  function Weighted(width: nat, k: nat, history: nat, current: nat): nat {
    Quotient(WeightedSum(Pow2(width + k + 1), Pow2(k), history, current), Pow2(k))
  }

  /** The register value written back: a zero register takes the current value
      as it is, and the result is cast back to `width` bits. */
  function Average(width: nat, k: nat, history: nat, current: nat): nat {
    Wrap(if history != 0 then Weighted(width, k, history, current) else current, width)
  }

  /** Division of the weighted sum on unbounded naturals: `history` weighs
      p - 1 parts out of p and `current` one. */
  function Blend(p: nat, history: nat, current: nat): nat
    requires p > 0
  {
    assert p * history >= history by { MulMonotone(history, 1, p); }
    Quotient(p * history - history + current, p)
  }

  lemma MulMonotone(p: nat, a: int, b: int)
    requires a <= b
    ensures p * a <= p * b
  {
  }

  lemma QuotientBetween(x: nat, p: nat, lo: nat, hi: nat)
    requires p > 0 && p * lo <= x <= p * hi
    ensures lo <= Quotient(x, p) <= hi
  {
    var q := Quotient(x, p);
    if q < lo {
      MulMonotone(p, q + 1, lo);
    }
    if hi < q {
      MulMonotone(p, hi + 1, q);
    }
  }

  lemma {:induction false} Pow2Adds(a: nat, b: nat)
    ensures Pow2(a + b) == Pow2(a) * Pow2(b)
  {
    if b != 0 {
      Pow2Adds(a, b - 1);
    }
  }

  lemma SumBounds(p: nat, lo: nat, hi: nat)
    requires p > 0 && lo <= hi
    ensures p * lo <= p * lo - lo + hi <= p * hi
    ensures p * lo <= p * hi - hi + lo <= p * hi
  {
    MulMonotone(p - 1, lo, hi);
    assert (p - 1) * lo == p * lo - lo && (p - 1) * hi == p * hi - hi;
  }

  /** The blend lies between its two arguments. */
  lemma BlendBetween(p: nat, history: nat, current: nat)
    requires p > 0
    ensures Min(history, current) <= Blend(p, history, current) <= Max(history, current)
  {
    var lo, hi := Min(history, current), Max(history, current);
    SumBounds(p, lo, hi);
    MulMonotone(history, 1, p);
    QuotientBetween(p * history - history + current, p, lo, hi);
  }

  /** The weighted sum of values below w stays below p * w at every operator, so
      nothing wraps modulo twice that much. */
  lemma WeightedSumIsExact(m: nat, p: nat, w: nat, history: nat, current: nat)
    requires p > 0 && history < w && current < w && m == 2 * (p * w)
    ensures Remainder(p * history, m) == p * history
    ensures Remainder(p * history - history, m) == p * history - history
    ensures WeightedSum(m, p, history, current) == p * history - history + current
  {
    ProductsFit(p, w, history);
    SumsAreExact(m, p * w, p * history, w, history, current);
    hide Remainder;
    var product := p * history;
    assert WeightedSum(m, p, history, current) == Remainder(Remainder(Remainder(product, m) - history, m) + current, m);
  }

  lemma ProductsFit(p: nat, w: nat, history: nat)
    requires p > 0 && history < w
    ensures history <= p * history < p * w && w <= p * w
  {
    MulMonotone(p, history, w - 1);
    assert p * (w - 1) == p * w - p;
    MulMonotone(history, 1, p);
    MulMonotone(w, 1, p);
  }

  lemma SumsAreExact(m: nat, bound: nat, product: nat, w: nat, history: nat, current: nat)
    requires history <= product < bound && w <= bound && history < w && current < w && m == 2 * bound
    ensures Remainder(product, m) == product
    ensures Remainder(product - history, m) == product - history
    ensures Remainder(product - history + current, m) == product - history + current
  {
  }

  /** No intermediate value of the P4 expression wraps, for any register width
      and any shift, so it computes the blend on naturals. */
  lemma WeightedIsExact(width: nat, k: nat, history: nat, current: nat)
    requires history < Pow2(width) && current < Pow2(width)
    ensures WeightedSum(Pow2(width + k + 1), Pow2(k), history, current) == Pow2(k) * history - history + current
    ensures Weighted(width, k, history, current) == Blend(Pow2(k), history, current)
  {
    Pow2Adds(k, width);
    var m := Pow2(width + k + 1);
    assert m == 2 * (Pow2(k) * Pow2(width));
    WeightedSumIsExact(m, Pow2(k), Pow2(width), history, current);
  }

  /** The cast back to the register width loses nothing, and the new average
      lies between the old one and the current value. */
  lemma AverageIsExact(width: nat, k: nat, history: nat, current: nat)
    requires history < Pow2(width) && current < Pow2(width)
    ensures Average(width, k, history, current) == if history != 0 then Blend(Pow2(k), history, current) else current
    ensures Min(history, current) <= Average(width, k, history, current) <= Max(history, current)
  {
    WeightedIsExact(width, k, history, current);
    BlendBetween(Pow2(k), history, current);
  }
}
