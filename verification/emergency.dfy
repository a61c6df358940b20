/** The emergency-fund planner: progress towards the target, months to
    go at the monthly contribution, and months of expenses covered.
    Amounts are whole dollars; the divisions are stated exactly over the
    integers, which needs a positive target and contribution. */
module Emergency {

  datatype Fund = Fund(current: int, target: int, monthly: int)

  /** The planner's starting values. */
  const Sample: Fund := Fund(4500, 10000, 300)

  /** Monthly essential expenses the coverage estimate assumes. */
  const MONTHLY_ESSENTIALS: int := 1500

  /** `Math.round(n / d)` for a positive `d`: the nearest integer, halves
      rounded up. */
  function RoundHalfUp(n: int, d: int): (r: int)
    requires d > 0
    ensures 2 * n - d < 2 * d * r <= 2 * n + d
  {
    (2 * n + d) / (2 * d)
  }

  /** Rounded percentage of the target saved, capped at 100. */
  function Progress(f: Fund): (p: int)
    requires f.target > 0
    ensures p <= 100
    ensures f.current >= f.target ==> p == 100
    ensures f.current >= 0 ==> p >= 0
    ensures p < 100 ==> p == RoundHalfUp(100 * f.current, f.target)
    ensures p <= RoundHalfUp(100 * f.current, f.target)
    ensures p == 100 || p == RoundHalfUp(100 * f.current, f.target)
  {
    var q := RoundHalfUp(100 * f.current, f.target);
    RoundBounds(100 * f.current, f.target, q, 100);
    RoundBounds(100 * f.current, f.target, q, 0);
    if q < 100 then q else 100
  }

  /** A rounded quotient is at least `k` when the quotient is. */
  lemma RoundBounds(n: int, d: int, q: int, k: int)
    requires d > 0 && 2 * n - d < 2 * d * q
    ensures n >= k * d ==> q >= k
  {
    if n >= k * d {
      assert 2 * d * q > 2 * d * k - d;
      assert 2 * d * (q - k) > -d;
      if q < k {
        assert q - k <= -1;
        MulNegative(2 * d, q - k);
      }
    }
  }

  lemma MulNegative(a: int, b: int)
    requires a > 0 && b <= -1
    ensures a * b <= -a
  {
  }

  function Remaining(f: Fund): int
  {
    f.target - f.current
  }

  /** `Math.ceil(remaining / monthly)`: the fewest whole months whose
      contributions cover what remains. */
  function MonthsRemaining(f: Fund): (k: int)
    requires f.monthly > 0
    ensures k * f.monthly >= Remaining(f)
    ensures (k - 1) * f.monthly < Remaining(f)
  {
    (Remaining(f) + f.monthly - 1) / f.monthly
  }

  /** `Math.floor(current / 1500)`: whole months of essentials covered. */
  function CoverageMonths(f: Fund): (k: int)
    ensures k * MONTHLY_ESSENTIALS <= f.current < (k + 1) * MONTHLY_ESSENTIALS
  {
    f.current / MONTHLY_ESSENTIALS
  }

  /** The line under the progress bar. */
  datatype StatusLine = MonthsToGo(months: int) | FullyFunded

  /** The line as written: "fully funded" as soon as the rounded
      progress reaches 100. */
  function StatusAsWritten(f: Fund): StatusLine
    requires f.target > 0 && f.monthly > 0
  {
    if Progress(f) < 100 then MonthsToGo(MonthsRemaining(f)) else FullyFunded
  }

  /** At 9950 of 10000 the rounded progress is 100, so the page says the
      fund is fully funded while 50 dollars remain. */
  lemma FullyFundedTooEarlyAsWritten()
    ensures StatusAsWritten(Fund(9950, 10000, 300)) == FullyFunded
    ensures Remaining(Fund(9950, 10000, 300)) == 50
  {
  }

  /** The line as intended: "fully funded" exactly when nothing remains,
      otherwise the number of months to go, which is then at least one. */
  function FundStatus(f: Fund): (s: StatusLine)
    requires f.target > 0 && f.monthly > 0
    ensures s == FullyFunded <==> Remaining(f) <= 0
    ensures s.MonthsToGo? ==> s.months == MonthsRemaining(f) && s.months >= 1
  {
    if f.current < f.target then MonthsToGo(MonthsRemaining(f)) else FullyFunded
  }

  /** The two lines differ only where rounding reaches 100 early: whenever
      the written line shows months to go, so does the intended one. */
  lemma StatusAgreesBelowHundred(f: Fund)
    requires f.target > 0 && f.monthly > 0
    ensures StatusAsWritten(f).MonthsToGo? ==> FundStatus(f) == StatusAsWritten(f)
    ensures FundStatus(f) == FullyFunded ==> StatusAsWritten(f) == FullyFunded
  {
  }

  /** The sample fund: 45% saved, 19 months to go, 3 months covered. */
  lemma SampleFigures()
    ensures Progress(Sample) == 45
    ensures MonthsRemaining(Sample) == 19
    ensures CoverageMonths(Sample) == 3
    ensures FundStatus(Sample) == MonthsToGo(19)
  {
  }

  /* The three input handlers each replace one field. */

  function SetCurrent(f: Fund, v: int): (r: Fund)
    ensures r.current == v && r.target == f.target && r.monthly == f.monthly
  {
    f.(current := v)
  }

  function SetTarget(f: Fund, v: int): (r: Fund)
    ensures r.target == v && r.current == f.current && r.monthly == f.monthly
  {
    f.(target := v)
  }

  function SetMonthly(f: Fund, v: int): (r: Fund)
    ensures r.monthly == v && r.current == f.current && r.target == f.target
  {
    f.(monthly := v)
  }

  /** Edits to different fields do not interfere, and a later edit of a
      field overrides an earlier one. */
  lemma HandlersIndependent(f: Fund, a: int, b: int, c: int)
    ensures SetTarget(SetCurrent(f, a), b) == SetCurrent(SetTarget(f, b), a)
    ensures SetMonthly(SetCurrent(f, a), c) == SetCurrent(SetMonthly(f, c), a)
    ensures SetMonthly(SetTarget(f, b), c) == SetTarget(SetMonthly(f, c), b)
    ensures SetCurrent(SetCurrent(f, a), b) == SetCurrent(f, b)
    ensures SetCurrent(SetTarget(SetMonthly(f, c), b), a) == Fund(a, b, c)
  {
  }

  /** Saving more never lowers the progress shown. */
  lemma {:induction false} ProgressMonotone(f: Fund, more: int)
    requires f.target > 0 && more >= f.current
    ensures Progress(f) <= Progress(SetCurrent(f, more))
  {
    var t := f.target;
    var n1 := 2 * 100 * f.current + t;
    var n2 := 2 * 100 * more + t;
    assert n1 <= n2;
    DivMonotone(n1, n2, 2 * t);
  }

  lemma DivMonotone(a: int, b: int, d: int)
    requires d > 0 && a <= b
    ensures a / d <= b / d
  {
    var q1, q2 := a / d, b / d;
    assert q1 * d <= a && b < (q2 + 1) * d;
  }
}
