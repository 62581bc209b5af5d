/** The assessment scoring rule: the overall score is twenty times the mean of the submitted
    sub-scores, rounded; each sub-score is a gap when below the goal's target and a strength
    otherwise. */
module Scoring {
  import opened Wrappers
  import opened Schema

  /** `Object.values(scores)`, in insertion order. */
  function Values(obj: seq<Entry>): (r: seq<int>)
    ensures |r| == |obj|
    ensures forall i :: 0 <= i < |obj| ==> r[i] == obj[i].value
  {
    seq(|obj|, i requires 0 <= i < |obj| => obj[i].value)
  }

  /** `scoreValues.reduce((a, b) => a + b, 0)`. */
  function Sum(vals: seq<int>): int
  {
    if vals == [] then 0 else Sum(vals[..|vals| - 1]) + vals[|vals| - 1]
  }

  /** `Math.round(sum / n * 20)` over the exact rational value: `Math.round(x)` is
      `floor(x + 1/2)`, and `floor(20 s / n + 1/2) = floor((40 s + n) / (2 n))`. */
  function OverallScore(vals: seq<int>): (r: int)
    requires |vals| > 0
    // r is the integer nearest to 20 * Sum / n, halves rounded up:
    // r - 1/2 <= 20 * Sum / n < r + 1/2
    ensures 2 * |vals| * r - |vals| <= 40 * Sum(vals) < 2 * |vals| * r + |vals|
  {
    var n, s := |vals|, Sum(vals);
    DivBounds(40 * s + n, 2 * n);
    (40 * s + n) / (2 * n)
  }

  lemma DivBounds(a: int, b: int)
    requires b > 0
    ensures b * (a / b) <= a < b * (a / b) + b
  {
  }

  lemma {:induction false} MulNonNegative(m: int, k: nat)
    requires m > 0
    ensures m * k >= 0
  {
    if k > 0 {
      MulNonNegative(m, k - 1);
      assert m * k == m * (k - 1) + m;
    }
  }

  /** `m * x < m * (y + 1)` with `m` positive gives `x <= y`. */
  lemma MulCancel(m: int, x: int, y: int)
    requires m > 0 && m * x < m * y + m
    ensures x <= y
  {
    if x > y {
      MulNonNegative(m, x - y - 1);
    }
  }

  /** Two integers within a half of the same `20 s / n` are equal. */
  lemma NearestUnique(n: int, s: int, r: int, q: int)
    requires n > 0
    requires 2 * n * r - n <= 40 * s < 2 * n * r + n
    requires 2 * n * q - n <= 40 * s < 2 * n * q + n
    ensures r == q
  {
    MulCancel(2 * n, r, q);
    MulCancel(2 * n, q, r);
  }

  /** Rounding is determined by its characterisation: no other integer is within a half. */
  lemma OverallScoreUnique(vals: seq<int>, r: int)
    requires |vals| > 0
    requires 2 * |vals| * r - |vals| <= 40 * Sum(vals) < 2 * |vals| * r + |vals|
    ensures r == OverallScore(vals)
  {
    NearestUnique(|vals|, Sum(vals), r, OverallScore(vals));
  }

  /** The integer nearest to `20 s / n` with `0 <= s <= 5 n` lies in `0..100`. */
  lemma NearestInRange(n: int, s: int, r: int)
    requires n > 0 && 0 <= s <= 5 * n
    requires 2 * n * r - n <= 40 * s < 2 * n * r + n
    ensures 0 <= r <= 100
  {
    assert 2 * n * (-1) < 2 * n * r + 2 * n;
    MulCancel(2 * n, -1, r);
    assert 2 * n * r < 2 * n * 100 + 2 * n;
    MulCancel(2 * n, r, 100);
  }

  /** Every value lies in `0..5`. */
  predicate InRange(vals: seq<int>)
  {
    forall i :: 0 <= i < |vals| ==> 0 <= vals[i] <= 5
  }

  lemma {:induction false} SumBounds(vals: seq<int>)
    requires InRange(vals)
    ensures 0 <= Sum(vals) <= 5 * |vals|
  {
    if vals != [] {
      SumBounds(vals[..|vals| - 1]);
    }
  }

  /** Sub-scores in `0..5` give an overall score in `0..100`. */
  lemma OverallScoreInRange(vals: seq<int>)
    requires |vals| > 0 && InRange(vals)
    ensures 0 <= OverallScore(vals) <= 100
  {
    SumBounds(vals);
    NearestInRange(|vals|, Sum(vals), OverallScore(vals));
  }

  /** `{ exploring: 3, support: 3, job: 4, pmp: 5, improve: 4 }`. */
  const TargetByGoal: map<string, int> :=
    map["exploring" := 3, "support" := 3, "job" := 4, "pmp" := 5, "improve" := 4]

  /** `targetByGoal[objectives.goal] || 4`. */
  function Target(goal: Option<string>): (r: int)
    ensures r == 3 <==> goal == Some("exploring") || goal == Some("support")
    ensures r == 5 <==> goal == Some("pmp")
    ensures r == 4 <==> !(goal == Some("exploring") || goal == Some("support") || goal == Some("pmp"))
  {
    if goal.Some? && goal.value in TargetByGoal && TargetByGoal[goal.value] != 0
    then TargetByGoal[goal.value] else 4
  }

  /** `scoreValues.filter(s => s < target).length`. */
  function Gaps(vals: seq<int>, target: int): nat
  {
    if vals == [] then 0
    else Gaps(vals[..|vals| - 1], target) + (if vals[|vals| - 1] < target then 1 else 0)
  }

  /** `scoreValues.filter(s => s >= target).length`. */
  function Strengths(vals: seq<int>, target: int): nat
  {
    if vals == [] then 0
    else Strengths(vals[..|vals| - 1], target) + (if vals[|vals| - 1] >= target then 1 else 0)
  }

  /** Every submitted value is counted exactly once, as a gap or as a strength. */
  lemma {:induction false} GapsPlusStrengths(vals: seq<int>, target: int)
    ensures Gaps(vals, target) + Strengths(vals, target) == |vals|
  {
    if vals != [] {
      GapsPlusStrengths(vals[..|vals| - 1], target);
    }
  }

  /** A higher target never gives fewer gaps. */
  lemma {:induction false} GapsMonotone(vals: seq<int>, t1: int, t2: int)
    requires t1 <= t2
    ensures Gaps(vals, t1) <= Gaps(vals, t2)
  {
    if vals != [] {
      GapsMonotone(vals[..|vals| - 1], t1, t2);
    }
  }

  /** `pmp` yields at least as many gaps as `job`, and `job` at least as many as
      `exploring`. */
  lemma GoalGapOrder(vals: seq<int>)
    ensures Gaps(vals, Target(Some("pmp"))) >= Gaps(vals, Target(Some("job")))
    ensures Gaps(vals, Target(Some("job"))) >= Gaps(vals, Target(Some("exploring")))
  {
    GapsMonotone(vals, Target(Some("job")), Target(Some("pmp")));
    GapsMonotone(vals, Target(Some("exploring")), Target(Some("job")));
  }

  /** 13 sub-scores all equal to 3 with goal `job`: overall 60, 13 gaps, no strength. */
  lemma WorkedExample()
    ensures var vals := seq(13, _ => 3);
      && OverallScore(vals) == 60
      && Target(Some("job")) == 4
      && Gaps(vals, 4) == 13
      && Strengths(vals, 4) == 0
  {
    var vals := seq(13, _ => 3);
    ConstantCounts(13, 3, 4);
    OverallScoreUnique(vals, 60);
  }

  /** `n` copies of `c`, counted against a target above `c`. */
  lemma {:induction false} ConstantCounts(n: nat, c: int, target: int)
    requires c < target
    ensures Sum(seq(n, _ => c)) == n * c
    ensures Gaps(seq(n, _ => c), target) == n
    ensures Strengths(seq(n, _ => c), target) == 0
  {
    if n > 0 {
      ConstantCounts(n - 1, c, target);
      assert seq(n, _ => c)[..n - 1] == seq(n - 1, _ => c);
    }
  }
}
