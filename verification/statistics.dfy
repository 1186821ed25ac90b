/**
 The end-of-run statistics: the three run counters and the figures of the
 final report derived from them. The percentage is an exact `real` here;
 every threshold on it is also stated with integer cross-multiplication.
 */
module Statistics {

  /** Width of the success-rate bar, in segments. */
  const ProgressBarLength: nat := 20

  /** The cross-session counters of the run. */
  datatype Tally = Tally(totalSessions: nat, successes: nat, cumulativeAttempts: nat)

  datatype Tier = Excellent | Good | Average | NeedsImprovement

  /** The figures the final report prints. */
  datatype Report = Report(
    totalSessions: nat,
    successes: nat,
    successRate: real,
    averageAttempts: nat,
    tier: Tier,
    filledSegments: int)

  /** Average attempts per session: integer division of the cumulative count by
      the session count, and 0 when no session was played. */
  function AverageAttempts(t: Tally): (avg: nat)
    ensures t.totalSessions == 0 ==> avg == 0
    ensures t.totalSessions > 0 ==>
              avg * t.totalSessions <= t.cumulativeAttempts < (avg + 1) * t.totalSessions
  {
    if t.totalSessions > 0 then t.cumulativeAttempts / t.totalSessions else 0
  }

  /** Success rate in percent; 0 when no session was played. */
  function SuccessRate(t: Tally): (rate: real)
    ensures t.totalSessions == 0 ==> rate == 0.0
    ensures t.totalSessions > 0 ==> rate * (t.totalSessions as real) == (100 * t.successes) as real
    ensures t.successes <= t.totalSessions ==> 0.0 <= rate <= 100.0
  {
    if t.totalSessions > 0 then
      var rate := (t.successes as real) / (t.totalSessions as real) * 100.0;
      QuotientBounds(t.successes as real, t.totalSessions as real);
      rate
    else 0.0
  }

  /** The ratio `s / n` multiplied back by `n` gives `s`, and it lies in [0, 1]
      when `0 <= s <= n`. */
  lemma QuotientBounds(s: real, n: real)
    requires n > 0.0
    ensures (s / n) * n == s
    ensures 0.0 <= s <= n ==> 0.0 <= s / n <= 1.0
  {
  }

  /** Classification by success rate at the thresholds 80, 60 and 40 percent;
      each threshold is a cross-multiplied comparison of successes and sessions. */
  function Classify(t: Tally): (tier: Tier)
    ensures tier == Excellent <==> t.totalSessions > 0 && 5 * t.successes >= 4 * t.totalSessions
    ensures tier == Good <==>
              t.totalSessions > 0 && 5 * t.successes < 4 * t.totalSessions && 5 * t.successes >= 3 * t.totalSessions
    ensures tier == Average <==>
              t.totalSessions > 0 && 5 * t.successes < 3 * t.totalSessions && 5 * t.successes >= 2 * t.totalSessions
    ensures tier == NeedsImprovement <==> t.totalSessions == 0 || 5 * t.successes < 2 * t.totalSessions
  {
    var rate := SuccessRate(t);
    if t.totalSessions == 0 then
      NeedsImprovement
    else
      RateAtLeast(t, 80);
      RateAtLeast(t, 60);
      RateAtLeast(t, 40);
      if rate >= 80.0 then Excellent
      else if rate >= 60.0 then Good
      else if rate >= 40.0 then Average
      else NeedsImprovement
  }

  /** A percentage threshold on the rate is the integer comparison
      `100 * successes >= p * sessions`. */
  lemma RateAtLeast(t: Tally, p: nat)
    requires t.totalSessions > 0
    ensures SuccessRate(t) >= p as real <==> 100 * t.successes >= p * t.totalSessions
  {
    var n := t.totalSessions;
    var rate := SuccessRate(t);
    ScaleByPositive(rate, p as real, n as real);
    CastProduct(p, n);
    assert rate * (n as real) == (100 * t.successes) as real;
  }

  /** Converting a product of naturals to a real is the product of the
      converted factors. */
  lemma CastProduct(a: nat, b: nat)
    ensures (a * b) as real == (a as real) * (b as real)
  {
  }

  /** Multiplying both sides by a positive number keeps a comparison. */
  lemma ScaleByPositive(a: real, b: real, n: real)
    requires n > 0.0
    ensures a >= b <==> a * n >= b * n
  {
    if a >= b {
      assert a * n - b * n == (a - b) * n;
    } else {
      assert b * n - a * n == (b - a) * n;
    }
  }

  /** Rank of a tier, from the lowest to the highest. */
  function Rank(tier: Tier): nat
  {
    match tier
    case NeedsImprovement => 0
    case Average => 1
    case Good => 2
    case Excellent => 3
  }

  /** A higher success rate never earns a lower tier. */
  lemma ClassifyMonotone(a: Tally, b: Tally)
    requires SuccessRate(a) <= SuccessRate(b)
    ensures Rank(Classify(a)) <= Rank(Classify(b))
  {
  }

  /** Filled segments of the bar: the rate scaled to the bar width and
      truncated, which is `successes * 20 / sessions` rounded down. */
  function FilledSegments(t: Tally): (n: int)
    ensures t.totalSessions == 0 ==> n == 0
    ensures t.totalSessions > 0 ==> n == (ProgressBarLength * t.successes) / t.totalSessions
    ensures t.successes <= t.totalSessions ==> 0 <= n <= ProgressBarLength
  {
    var scaled := SuccessRate(t) / 100.0 * (ProgressBarLength as real);
    ScaledRateIsQuotient(t);
    scaled.Floor
  }

  lemma ScaledRateIsQuotient(t: Tally)
    ensures t.totalSessions > 0 ==>
              (SuccessRate(t) / 100.0 * (ProgressBarLength as real)).Floor
              == (ProgressBarLength * t.successes) / t.totalSessions
    ensures t.totalSessions == 0 ==> (SuccessRate(t) / 100.0 * (ProgressBarLength as real)).Floor == 0
  {
    if t.totalSessions > 0 {
      ScaledRateTimesSessions(t);
      FloorOfRatio(SuccessRate(t) / 100.0 * (ProgressBarLength as real),
                   ProgressBarLength * t.successes, t.totalSessions);
    }
  }

  /** A real that is `m / n` exactly truncates to the integer quotient. */
  lemma FloorOfRatio(x: real, m: nat, n: nat)
    requires n > 0
    requires x * (n as real) == m as real
    ensures x.Floor == m / n
  {
    var q := m / n;
    FloorQuotient(m, n);
    BetweenMultiples(x, n, q, m);
    FloorIs(x, q);
  }

  /** The scaled rate times the session count is the scaled success count. */
  lemma ScaledRateTimesSessions(t: Tally)
    requires t.totalSessions > 0
    ensures (SuccessRate(t) / 100.0 * (ProgressBarLength as real)) * (t.totalSessions as real)
            == (ProgressBarLength * t.successes) as real
  {
    var rate := SuccessRate(t);
    var n := t.totalSessions as real;
    assert rate * n == (100 * t.successes) as real;
    assert (rate / 100.0 * 20.0) * n == (rate * n) / 5.0;
  }

  /** A real whose product with `n` lies between `q * n` and `(q + 1) * n`
      lies between `q` and `q + 1`. */
  lemma BetweenMultiples(x: real, n: nat, q: nat, m: int)
    requires n > 0
    requires x * (n as real) == m as real
    requires q * n <= m < (q + 1) * n
    ensures q as real <= x < (q + 1) as real
  {
    var nr := n as real;
    CastProduct(q, n);
    CastProduct(q + 1, n);
    assert (q as real) * nr <= x * nr;
    assert x * nr < ((q + 1) as real) * nr;
    ScaleByPositive(x, q as real, nr);
    ScaleByPositive(x, (q + 1) as real, nr);
  }

  lemma FloorIs(x: real, q: int)
    requires q as real <= x < (q + 1) as real
    ensures x.Floor == q
  {
  }

  /** The report the run ends with. It carries the counters through, gives the
      average as the floor quotient, the rate as the exact percentage and the
      bar as the floor of the scaled rate, keeps the rate and the bar within
      their ranges, and its tier and bar agree. */
  function Summarize(t: Tally): (r: Report)
    ensures r.totalSessions == t.totalSessions && r.successes == t.successes
    ensures t.totalSessions == 0 ==> r.averageAttempts == 0 && r.successRate == 0.0 && r.filledSegments == 0
    ensures t.totalSessions > 0 ==>
              r.averageAttempts * t.totalSessions <= t.cumulativeAttempts < (r.averageAttempts + 1) * t.totalSessions
    ensures t.totalSessions > 0 ==> r.successRate * (t.totalSessions as real) == (100 * t.successes) as real
    ensures t.totalSessions > 0 ==> r.filledSegments == (ProgressBarLength * t.successes) / t.totalSessions
    ensures t.successes <= t.totalSessions ==>
              0.0 <= r.successRate <= 100.0 && 0 <= r.filledSegments <= ProgressBarLength
    ensures r.averageAttempts * t.totalSessions <= t.cumulativeAttempts
    ensures r.tier == Excellent <==> r.filledSegments >= 16
    ensures r.tier == Good <==> 12 <= r.filledSegments < 16
    ensures r.tier == Average <==> 8 <= r.filledSegments < 12
    ensures r.tier == NeedsImprovement <==> r.filledSegments < 8
  {
    ClassifyMatchesBar(t);
    Report(t.totalSessions, t.successes, SuccessRate(t), AverageAttempts(t), Classify(t), FilledSegments(t))
  }

  /** The tier and the bar agree: at least 16, 12 and 8 of the 20 segments are
      filled exactly at the Excellent, Good and Average thresholds. */
  lemma ClassifyMatchesBar(t: Tally)
    ensures Classify(t) == Excellent <==> FilledSegments(t) >= 16
    ensures Classify(t) == Good <==> 12 <= FilledSegments(t) < 16
    ensures Classify(t) == Average <==> 8 <= FilledSegments(t) < 12
    ensures Classify(t) == NeedsImprovement <==> FilledSegments(t) < 8
  {
    var tier := Classify(t);
    var q := FilledSegments(t);
    if t.totalSessions > 0 {
      var n := t.totalSessions;
      var x := ProgressBarLength * t.successes;
      assert q == x / n;
      FloorQuotient(x, n);
      QuotientAtLeast(q, n, x, 16);
      QuotientAtLeast(q, n, x, 12);
      QuotientAtLeast(q, n, x, 8);
    }
  }

  lemma FloorQuotient(x: int, n: int)
    requires n > 0
    ensures (x / n) * n <= x < (x / n + 1) * n
  {
  }

  /** For the floor quotient `q` of `x` by `n`, `q >= k` exactly when `x >= k * n`. */
  lemma QuotientAtLeast(q: int, n: nat, x: int, k: int)
    requires q * n <= x < (q + 1) * n
    ensures q >= k <==> x >= k * n
  {
    if q >= k {
      MulMonotone(k, q, n);
    } else {
      MulMonotone(q + 1, k, n);
    }
  }

  lemma MulMonotone(a: int, b: int, n: nat)
    requires a <= b
    ensures a * n <= b * n
  {
    var d := b - a;
    assert b * n == a * n + d * n;
  }

  /** With no session played every figure is zero and the tier is the lowest. */
  lemma NoSessionsReport()
    ensures Summarize(Tally(0, 0, 0)) == Report(0, 0, 0.0, 0, NeedsImprovement, 0)
  {
  }
}
