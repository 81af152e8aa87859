/**
 * The random draws the seeding engine makes, as total functions of an
 * oracle value. A draw of `random.randint`, `random.choice` or an
 * `ORDER BY RANDOM() LIMIT 1` pick is given as an arbitrary natural number k
 * and mapped into range by `k % size`: every k gives a legal outcome and
 * every legal outcome is reached by some k, so a property proved for every
 * oracle is a property of every run. A draw of `random.random()` is a real
 * in [0, 1).
 */
module Sampling {

  /** A value of `random.random()`. */
  type Unit = r: real | 0.0 <= r < 1.0

  /** `random.randint(lo, hi)` for the raw draw k. */
  function RandInt(k: nat, lo: int, hi: int): (r: int)
    requires lo <= hi
    ensures lo <= r <= hi
  {
    lo + k % (hi - lo + 1)
  }

  /** Every value `randint(lo, hi)` can return is the outcome of some draw. */
  lemma RandIntReaches(lo: int, hi: int, v: int)
    requires lo <= v <= hi
    ensures RandInt((v - lo) as nat, lo, hi) == v
  {
  }

  /** `random.choice(xs)` for the raw draw k. */
  function Choice<T>(xs: seq<T>, k: nat): (r: T)
    requires |xs| > 0
    ensures r in xs
  {
    xs[k % |xs|]
  }

  /** Every element of xs is the outcome of some draw of `choice(xs)`. */
  lemma ChoiceReaches<T>(xs: seq<T>, i: nat)
    requires i < |xs|
    ensures Choice(xs, i) == xs[i]
  {
  }

  /** `random.uniform(a, b)`, computed as Python does: a + (b - a) * random(). */
  function Uniform(a: real, b: real, u: Unit): (r: real)
    requires a <= b
    ensures a <= r && (a < b ==> r < b)
  {
    var d := b - a;
    ScaleBounds(d, u);
    a + d * u
  }

  /** Scaling a non-negative amount by a value in [0, 1) keeps it in [0, amount). */
  lemma ScaleBounds(d: real, u: Unit)
    requires d >= 0.0
    ensures 0.0 <= d * u <= d
    ensures d > 0.0 ==> d * u < d
  {
    assert d * u + d * (1.0 - u) == d;
    if d > 0.0 {
      assert d * (1.0 - u) > 0.0;
    }
  }

  /** `random() * total` for a positive total: a point in [0, total). */
  function Scale(u: Unit, total: real): (x: real)
    requires total > 0.0
    ensures 0.0 <= x < total
  {
    ScaleBounds(total, u);
    total * u
  }

  // ---------------------------------------------------------------------
  // random.choices(population, weights)[0]
  // ---------------------------------------------------------------------

  /** `itertools.accumulate(w)`: the running sums of the weights. */
  function Accumulate(w: seq<real>): (cum: seq<real>)
    ensures |cum| == |w|
    ensures |w| > 0 ==> cum[0] == w[0]
    ensures forall i {:trigger w[i]} :: 0 < i < |w| ==> cum[i] == cum[i - 1] + w[i]
  {
    if |w| == 0 then []
    else
      var prefix := Accumulate(w[..|w| - 1]);
      prefix + [(if |prefix| == 0 then 0.0 else prefix[|prefix| - 1]) + w[|w| - 1]]
  }

  /** The sum of all weights (the last running sum). */
  function Total(w: seq<real>): real
  {
    if |w| == 0 then 0.0 else Accumulate(w)[|w| - 1]
  }

  /** A weight vector `random.choices` accepts: one weight per label, none negative, positive total. */
  predicate Weights(w: seq<real>)
  {
    |w| > 0 && (forall i :: 0 <= i < |w| ==> w[i] >= 0.0) && Total(w) > 0.0
  }

  /**
   * `bisect.bisect_right(cum, x, lo, hi)`: the first index i in [lo, hi)
   * with x < cum[i], or hi when there is none. Stated as a linear scan, which
   * returns the same index as the binary search on a non-decreasing cum.
   */
  function BisectRight(cum: seq<real>, x: real, lo: nat, hi: nat): (i: nat)
    requires lo <= hi <= |cum|
    ensures lo <= i <= hi
    ensures forall j :: lo <= j < i ==> cum[j] <= x
    ensures i < hi ==> x < cum[i]
    decreases hi - lo
  {
    if lo == hi then hi else if x < cum[lo] then lo else BisectRight(cum, x, lo + 1, hi)
  }

  /**
   * The index `random.choices` picks: it scales random() by the total,
   * bisects the running sums and clamps the result to the last label
   * (`hi = n - 1`).
   */
  function ChoicesIndex(w: seq<real>, u: Unit): (i: nat)
    requires Weights(w)
    ensures i < |w|
  {
    var cum := Accumulate(w);
    BisectRight(cum, Scale(u, cum[|w| - 1]), 0, |w| - 1)
  }

  /** `random.choices(population, weights=w)[0]`. */
  function WeightedChoice<T>(population: seq<T>, w: seq<real>, u: Unit): T
    requires |population| == |w| && Weights(w)
  {
    population[ChoicesIndex(w, u)]
  }

  /**
   * Bisecting the running sums at a point below the total lands on a label
   * with positive weight: every earlier running sum is at most x, the one
   * picked is above it (or is the clamped last one, above the total's share
   * of x), so the step between them is positive.
   */
  lemma BisectWeightPositive(w: seq<real>, x: real)
    requires Weights(w)
    requires 0.0 <= x < Total(w)
    ensures w[BisectRight(Accumulate(w), x, 0, |w| - 1)] > 0.0
  {
    var cum := Accumulate(w);
    var n := |w|;
    var i := BisectRight(cum, x, 0, n - 1);
    if i == 0 {
      assert x < cum[0] || n == 1;
    } else {
      assert cum[i - 1] <= x;
      assert x < cum[i];
      assert cum[i] == cum[i - 1] + w[i];
    }
  }

  /**
   * A label whose weight is zero is never drawn: the index picked always
   * carries a positive weight.
   */
  lemma ChosenWeightPositive(w: seq<real>, u: Unit)
    requires Weights(w)
    ensures w[ChoicesIndex(w, u)] > 0.0
  {
    BisectWeightPositive(w, Scale(u, Accumulate(w)[|w| - 1]));
  }
}
