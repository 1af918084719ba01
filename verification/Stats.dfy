/** The shared numeric primitives: the exponentially weighted mean and variance,
    the z-score with its spread floor, the outlier gate and hour-of-day bucketing.
    The square root is a parameter (`sqrt`) wherever a standard deviation is
    taken, so every result holds whatever that function returns. */
module Stats {

  const HOURS_PER_DAY: nat := 24

  datatype EWMA = EWMA(mean: real, variance: real, count: nat)

  function Max(a: real, b: real): real { if a < b then b else a }

  function Abs(a: real): real { if a < 0.0 then -a else a }

  /** West's incremental form; the first observation seeds the mean. */
  function Observe(e: EWMA, value: real, alpha: real): EWMA
  {
    if e.count == 0 then EWMA(value, 0.0, 1)
    else
      var diff := value - e.mean;
      var incr := alpha * diff;
      EWMA(e.mean + incr, (1.0 - alpha) * (e.variance + diff * incr), e.count + 1)
  }

  function Std(variance: real, sqrt: real -> real): real { sqrt(Max(0.0, variance)) }

  /** The spread a z-score divides by: `max(std, floor)`, floor 1% of |mean|, at least 1e-9. */
  function Spread(mean: real, std: real): (s: real)
    ensures s > 0.0 && s >= std
  {
    var floor := Max(Abs(mean) * 0.01, 0.000000001);
    if std < floor then floor else std
  }

  /** The largest of the deviation, a hundredth of the mean's size, and a billionth. */
  lemma SpreadIsLargest(mean: real, std: real)
    ensures var s := Spread(mean, std);
      s >= mean / 100.0 && s >= -mean / 100.0 && s * 1000000000.0 >= 1.0
      && (s == std || s * 100.0 == mean || s * 100.0 == -mean || s * 1000000000.0 == 1.0)
  {
  }

  function ZScore(value: real, mean: real, std: real): real
  {
    (value - mean) / Spread(mean, std)
  }

  predicate ShouldReject(value: real, mean: real, std: real, confident: bool, rejectZ: real)
  {
    confident && rejectZ > 0.0 && Abs(ZScore(value, mean, std)) >= rejectZ
  }

  /** The UTC hour of a timestamp in seconds. */
  function HourOf(ts: int): (h: nat)
    ensures h < HOURS_PER_DAY
  {
    (ts / 3600) % 24
  }
}
