/**
 * The absence quota of `insert_mcp5`: the scan of active students assigns
 * each one an attendance rate, and a running counter caps how many get a
 * "long-absent" rate. A student with a gpa of at least 4.00 gets the rate
 * 0.3 while the counter is below `0.15 * target`; otherwise, while the
 * counter is below the target, a rare draw gives the rate 0.35; every
 * other student gets a regular rate from [0.7, 0.95).
 */
module Quota {
  import opened Sampling

  /** `target_long_absent`. */
  const Target: nat := 270
  /** `target_long_absent * 0.15`, the high-gpa share of the quota: 40.5. */
  const HighShare: real := 270.0 * 0.15
  const HighGpaRate: real := 0.3
  const RareRate: real := 0.35
  /** The chance of the rare rate, `random.random() < 0.1`. */
  const RareChance: real := 0.1

  /** One row of `SELECT student_id, gpa FROM Students WHERE status = '재학'`. */
  datatype Subject = Subject(id: nat, gpaCents: int)

  /** The draws of one student of the scan: the rare-rate trial, then the regular rate. */
  datatype RateDraw = RateDraw(trial: Unit, regular: Unit)

  /** Which branch of the assignment a student took. */
  datatype Tier = HighGpaAbsent | RareAbsent | Regular

  /** The branch taken for a student with this gpa when the counter stands at `count`. */
  function TierOf(gpaCents: int, count: nat, d: RateDraw): (t: Tier)
    ensures t == HighGpaAbsent ==> gpaCents >= 400 && count <= 40
    ensures t == RareAbsent ==> count < Target
  {
    if gpaCents >= 400 && (count as real) < HighShare then HighGpaAbsent
    else if count < Target then (if d.trial < RareChance then RareAbsent else Regular)
    else Regular
  }

  /** The attendance rate of a branch. */
  function RateOf(t: Tier, d: RateDraw): (rate: real)
    ensures t == HighGpaAbsent ==> rate == HighGpaRate
    ensures t == RareAbsent ==> rate == RareRate
    ensures t == Regular ==> 0.7 <= rate < 0.95
  {
    match t
    case HighGpaAbsent => HighGpaRate
    case RareAbsent => RareRate
    case Regular => Uniform(0.7, 0.95, d.regular)
  }

  /** A long-absent rate: 0.3 or 0.35. */
  predicate IsRare(rate: real)
  {
    rate == HighGpaRate || rate == RareRate
  }

  /** The counter after these branches: one per long-absent assignment. */
  function LongAbsent(tiers: seq<Tier>): nat
  {
    if |tiers| == 0 then 0
    else LongAbsent(tiers[..|tiers| - 1]) + (if tiers[|tiers| - 1] == Regular then 0 else 1)
  }

  /** How many students took the high-gpa branch. */
  function HighGpaCount(tiers: seq<Tier>): nat
  {
    if |tiers| == 0 then 0
    else HighGpaCount(tiers[..|tiers| - 1]) + (if tiers[|tiers| - 1] == HighGpaAbsent then 1 else 0)
  }

  /** The branches of the scan, in scan order, each taken with the counter its predecessors left. */
  function Tiers(subjects: seq<Subject>, draws: nat -> RateDraw): (tiers: seq<Tier>)
    ensures |tiers| == |subjects|
  {
    if |subjects| == 0 then []
    else
      var n := |subjects| - 1;
      var prefix := Tiers(subjects[..n], draws);
      prefix + [TierOf(subjects[n].gpaCents, LongAbsent(prefix), draws(n))]
  }

  /** The rates the scan assigns, in scan order. */
  function Rates(subjects: seq<Subject>, draws: nat -> RateDraw): (rates: seq<real>)
    ensures |rates| == |subjects|
  {
    var tiers := Tiers(subjects, draws);
    seq(|subjects|, i requires 0 <= i < |subjects| => RateOf(tiers[i], draws(i)))
  }

  /** One more student: the scan's branches so far, then this student's. */
  lemma TiersStep(subjects: seq<Subject>, draws: nat -> RateDraw, i: nat)
    requires i < |subjects|
    ensures Tiers(subjects[..i + 1], draws)
      == Tiers(subjects[..i], draws) + [TierOf(subjects[i].gpaCents, LongAbsent(Tiers(subjects[..i], draws)), draws(i))]
  {
    assert subjects[..i + 1][..i] == subjects[..i];
  }

  /** A prefix of the scan takes the same branches as the whole scan does there. */
  lemma {:induction false} TiersPrefix(subjects: seq<Subject>, draws: nat -> RateDraw, n: nat)
    requires n <= |subjects|
    ensures Tiers(subjects[..n], draws) == Tiers(subjects, draws)[..n]
    decreases |subjects|
  {
    if n < |subjects| {
      var m := |subjects| - 1;
      assert subjects[..m][..n] == subjects[..n];
      TiersPrefix(subjects[..m], draws, n);
      assert Tiers(subjects, draws)[..m] == Tiers(subjects[..m], draws);
    } else {
      assert subjects[..n] == subjects;
    }
  }

  /** The counter never exceeds the target. */
  lemma {:induction false} QuotaNeverExceeded(subjects: seq<Subject>, draws: nat -> RateDraw)
    ensures LongAbsent(Tiers(subjects, draws)) <= Target
    decreases |subjects|
  {
    if |subjects| > 0 {
      var n := |subjects| - 1;
      QuotaNeverExceeded(subjects[..n], draws);
      var tiers := Tiers(subjects, draws);
      assert tiers[..n] == Tiers(subjects[..n], draws);
    }
  }

  /**
   * The high-gpa branch is taken at most 41 times: it needs the counter
   * below 40.5, and each time it is taken the counter moves up.
   */
  lemma {:induction false} HighGpaAtMost41(subjects: seq<Subject>, draws: nat -> RateDraw)
    ensures HighGpaCount(Tiers(subjects, draws)) <= LongAbsent(Tiers(subjects, draws))
    ensures HighGpaCount(Tiers(subjects, draws)) <= 41
    decreases |subjects|
  {
    if |subjects| > 0 {
      var n := |subjects| - 1;
      HighGpaAtMost41(subjects[..n], draws);
      var tiers := Tiers(subjects, draws);
      assert tiers[..n] == Tiers(subjects[..n], draws);
    }
  }

  /**
   * The bound is reached: 41 students of gpa 4.00 or more at the head of the
   * scan all take the high-gpa branch, whatever is drawn.
   */
  lemma {:induction false} HighGpaReaches41(subjects: seq<Subject>, draws: nat -> RateDraw)
    requires |subjects| <= 41
    requires forall i :: 0 <= i < |subjects| ==> subjects[i].gpaCents >= 400
    ensures HighGpaCount(Tiers(subjects, draws)) == |subjects|
    ensures LongAbsent(Tiers(subjects, draws)) == |subjects|
    decreases |subjects|
  {
    if |subjects| > 0 {
      var n := |subjects| - 1;
      HighGpaReaches41(subjects[..n], draws);
      var tiers := Tiers(subjects, draws);
      assert tiers[..n] == Tiers(subjects[..n], draws);
      assert (n as real) < HighShare;
    }
  }

  /** A student takes the high-gpa branch only with a gpa of at least 4.00. */
  lemma HighGpaBranchNeedsGpa(subjects: seq<Subject>, draws: nat -> RateDraw, i: nat)
    requires i < |subjects|
    ensures Tiers(subjects, draws)[i] == HighGpaAbsent ==> subjects[i].gpaCents >= 400
  {
    TiersPrefix(subjects, draws, i + 1);
    TiersStep(subjects, draws, i);
  }

  /** The counter counts exactly the students given a long-absent rate, 0.3 or 0.35. */
  lemma {:induction false} CounterCountsRareRates(subjects: seq<Subject>, draws: nat -> RateDraw)
    ensures LongAbsent(Tiers(subjects, draws)) == RareCount(Rates(subjects, draws))
    decreases |subjects|
  {
    if |subjects| > 0 {
      var n := |subjects| - 1;
      CounterCountsRareRates(subjects[..n], draws);
      var tiers := Tiers(subjects, draws);
      var rates := Rates(subjects, draws);
      assert tiers[..n] == Tiers(subjects[..n], draws);
      assert rates[..n] == Rates(subjects[..n], draws);
      assert rates[n] == RateOf(tiers[n], draws(n));
    }
  }

  /** How many rates are long-absent ones. */
  function RareCount(rates: seq<real>): nat
  {
    if |rates| == 0 then 0
    else RareCount(rates[..|rates| - 1]) + (if IsRare(rates[|rates| - 1]) then 1 else 0)
  }

  /**
   * The branch of the loop body, as the code writes it: returns the rate and
   * the new counter.
   */
  method AssignRate(gpaCents: int, count: nat, d: RateDraw) returns (rate: real, count': nat)
    ensures rate == RateOf(TierOf(gpaCents, count, d), d)
    ensures count' == LongAbsentAfter(count, TierOf(gpaCents, count, d))
    ensures IsRare(rate) <==> count' == count + 1
    ensures !IsRare(rate) <==> count' == count
  {
    count' := count;
    if gpaCents >= 400 && (count as real) < Target as real * 0.15 {
      rate := 0.3;
      count' := count + 1;
    } else if count < Target {
      if d.trial < 0.1 {
        rate := 0.35;
        count' := count + 1;
      } else {
        rate := Uniform(0.7, 0.95, d.regular);
      }
    } else {
      rate := Uniform(0.7, 0.95, d.regular);
    }
  }

  /** The counter after one more assignment of this branch. */
  function LongAbsentAfter(count: nat, t: Tier): nat
  {
    if t == Regular then count else count + 1
  }
}
