/**
 * The anomaly detector (`detect_anomalies`): population z-scores of one
 * column of the daily series, a flag when |z| reaches the threshold, and a
 * fall-back to the most recent days when nothing is flagged.
 *
 * Square roots are avoided: a row carries its deviation from the mean and
 * the population variance, and the flag compares squares. `FlagIsZTest`
 * shows this is `detect_anomalies`'s |z| >= threshold for the standard deviation.
 */
module Anomaly {
  import opened Wrappers
  import opened Daily
  import Seqs

  const DEFAULT_METRIC: string := "approve_rate_over_impression"
  const DEFAULT_Z_THRESHOLD: real := 3.0

  /** How many recent days the fall-back returns. */
  const RECENT_DAYS: nat := 14

  /** The columns of the daily series. */
  datatype Column = DateColumn | Impressions | Clicks | Applies | Approves | ApproveRate

  /** The header of the daily series, in column order. */
  const DAILY_COLUMNS: seq<string> := ["date", "impressions", "clicks", "applies", "approves", "approve_rate_over_impression"]

  function ColumnName(c: Column): string {
    match c
    case DateColumn => "date"
    case Impressions => "impressions"
    case Clicks => "clicks"
    case Applies => "applies"
    case Approves => "approves"
    case ApproveRate => "approve_rate_over_impression"
  }

  /** The column a metric name selects, if the series has one by that name. */
  function ColumnOf(name: string): (r: Option<Column>)
    ensures r.Some? <==> name in DAILY_COLUMNS
    ensures r.Some? ==> ColumnName(r.value) == name
  {
    if name == "date" then Some(DateColumn)
    else if name == "impressions" then Some(Impressions)
    else if name == "clicks" then Some(Clicks)
    else if name == "applies" then Some(Applies)
    else if name == "approves" then Some(Approves)
    else if name == "approve_rate_over_impression" then Some(ApproveRate)
    else None
  }

  /** The numeric value of a row in a numeric column. */
  function Value(row: DailyRow, c: Column): real
    requires c != DateColumn
  {
    match c
    case Impressions => row.impressions as real
    case Clicks => row.clicks as real
    case Applies => row.applies as real
    case Approves => row.approves as real
    case ApproveRate => row.approveRateOverImpression
  }

  /** The date column cannot be read as numbers. */
  datatype AnomalyError = NonNumericMetric(metric: string)

  /**
   * One row of the z-score table. The z of `detect_anomalies` is `deviation / sd` with
   * `sd * sd == variance`, and 0 when `variance` is 0.
   */
  datatype AnomalyRow = AnomalyRow(date: string, metric: string, value: real, deviation: real, variance: real, flagged: bool)

  function Sum(vs: seq<real>): real {
    if |vs| == 0 then 0.0 else vs[0] + Sum(vs[1..])
  }

  /** The arithmetic mean: the value that, taken |vs| times, makes up the total. */
  function Mean(vs: seq<real>): (mu: real)
    requires |vs| > 0
    ensures mu * |vs| as real == Sum(vs)
  {
    Sum(vs) / |vs| as real
  }

  /** A square is never negative. */
  lemma SquareNonNegative(x: real)
    ensures x * x >= 0.0
  {
  }

  /** The distance of every value from `mu`. */
  function Deviations(vs: seq<real>, mu: real): (ds: seq<real>)
    ensures |ds| == |vs|
    ensures forall i :: 0 <= i < |vs| ==> ds[i] == vs[i] - mu
  {
    seq(|vs|, i requires 0 <= i < |vs| => vs[i] - mu)
  }

  function SumOfSquares(ds: seq<real>): (r: real)
    ensures r >= 0.0
  {
    if |ds| == 0 then 0.0
    else
      SquareNonNegative(ds[0]);
      ds[0] * ds[0] + SumOfSquares(ds[1..])
  }

  /** Population variance (divisor N, `ddof=0`). */
  function Variance(vs: seq<real>): (r: real)
    requires |vs| > 0
    ensures r >= 0.0
    ensures r * |vs| as real == SumOfSquares(Deviations(vs, Mean(vs)))
  {
    SumOfSquares(Deviations(vs, Mean(vs))) / |vs| as real
  }

  function Abs(x: real): real {
    if x < 0.0 then -x else x
  }

  /** The z-score for a given standard deviation, 0 when it is 0. */
  function ZScore(deviation: real, sd: real): real {
    if sd == 0.0 then 0.0 else deviation / sd
  }

  /** The flag test |z| >= t written with squares: a zero variance gives z = 0. */
  function Flag(deviation: real, variance: real, t: real): (r: bool)
    ensures t <= 0.0 ==> r
    ensures t > 0.0 && variance <= 0.0 ==> !r
    ensures t > 0.0 && r ==> deviation != 0.0
  {
    if t > 0.0 && variance > 0.0 then
      if deviation * deviation >= t * t * variance then
        FlagNeedsDeviation(deviation, t, variance);
        true
      else
        false
    else
      t <= 0.0
  }

  lemma MulMonotone(x: real, y: real, c: real)
    requires c >= 0.0 && x >= y
    ensures x * c >= y * c
    ensures c > 0.0 && x > y ==> x * c > y * c
  {
    assert x * c - y * c == (x - y) * c;
  }

  lemma MulPositive(x: real, y: real)
    requires x > 0.0 && y > 0.0
    ensures x * y > 0.0
  {
    MulMonotone(x, 0.0, y);
  }

  /** With a positive threshold and variance, only a non-zero deviation can reach the flag bound. */
  lemma FlagNeedsDeviation(d: real, t: real, v: real)
    requires t > 0.0 && v > 0.0 && d * d >= t * t * v
    ensures d != 0.0
  {
    MulPositive(t, v);
    var tv := t * v;
    MulPositive(t, tv);
    assert t * tv == t * t * v;
  }

  /** Squaring preserves the order of non-negative reals. */
  lemma SquareMonotone(a: real, b: real)
    requires a >= 0.0 && b >= 0.0
    ensures a >= b <==> a * a >= b * b
  {
    if a > b {
      MulPositive(a - b, a + b);
      assert (a - b) * (a + b) == a * a - b * b;
    } else if a < b {
      MulPositive(b - a, b + a);
      assert (b - a) * (b + a) == b * b - a * a;
    }
  }

  /** The squared test agrees with |z| >= t for the non-negative square root of the variance. */
  lemma FlagIsZTest(deviation: real, variance: real, sd: real, t: real)
    requires sd >= 0.0 && sd * sd == variance
    ensures Flag(deviation, variance, t) <==> Abs(ZScore(deviation, sd)) >= t
  {
    if sd > 0.0 && t > 0.0 {
      var a := Abs(deviation);
      MulPositive(sd, sd);
      MulPositive(t, sd);
      assert Abs(ZScore(deviation, sd)) == a / sd;
      DivideBound(a, sd, t);
      SquareMonotone(a, t * sd);
      assert a * a == deviation * deviation;
      assert (t * sd) * (t * sd) == t * t * variance;
    }
  }

  /** For a positive divisor, a / d >= t exactly when a >= t * d. */
  lemma DivideBound(a: real, d: real, t: real)
    requires d > 0.0
    ensures a / d >= t <==> a >= t * d
  {
    var q := a / d;
    assert q * d == a;
    if q >= t {
      MulMonotone(q, t, d);
    } else {
      MulPositive(t - q, d);
      assert (t - q) * d == t * d - q * d;
    }
  }

  /** The values of one numeric column, day by day. */
  function Values(daily: seq<DailyRow>, c: Column): (vs: seq<real>)
    requires c != DateColumn
    ensures |vs| == |daily|
  {
    seq(|daily|, i requires 0 <= i < |daily| => Value(daily[i], c))
  }

  /** The per-day z-score table for a non-empty series and a numeric column. */
  function ScoreTable(daily: seq<DailyRow>, metric: string, c: Column, t: real): (out: seq<AnomalyRow>)
    requires |daily| > 0 && c != DateColumn
    ensures |out| == |daily|
    ensures forall i :: 0 <= i < |out| ==>
      && out[i].date == daily[i].date
      && out[i].metric == metric
      && out[i].value == Value(daily[i], c)
      && out[i].deviation == out[i].value - Mean(Values(daily, c))
      && out[i].variance == Variance(Values(daily, c))
      && (out[i].flagged <==> Flag(out[i].deviation, out[i].variance, t))
  {
    var vs := Values(daily, c);
    var mu := Mean(vs);
    var variance := Variance(vs);
    seq(|daily|, i requires 0 <= i < |daily| =>
      AnomalyRow(daily[i].date, metric, vs[i], vs[i] - mu, variance, Flag(vs[i] - mu, variance, t)))
  }

  predicate IsFlagged(r: AnomalyRow) {
    r.flagged
  }

  /** The flagged rows if there are any, otherwise the most recent days. */
  function Select(out: seq<AnomalyRow>): (r: seq<AnomalyRow>)
    ensures (exists i :: 0 <= i < |out| && out[i].flagged) ==>
      r == Seqs.Filter(out, IsFlagged) && |r| > 0 && forall i :: 0 <= i < |r| ==> r[i].flagged
    ensures (forall i :: 0 <= i < |out| ==> !out[i].flagged) ==>
      |r| == Seqs.Min(RECENT_DAYS, |out|) && forall i :: 0 <= i < |r| ==> r[i] == out[|out| - |r| + i]
  {
    var flagged := Seqs.Filter(out, IsFlagged);
    if |flagged| > 0 then
      assert forall i :: 0 <= i < |flagged| ==> flagged[i].flagged by {
        forall i | 0 <= i < |flagged| ensures flagged[i].flagged {
          assert IsFlagged(flagged[i]);
        }
      }
      assert flagged[0] in out;
      flagged
    else
      assert forall i :: 0 <= i < |out| ==> !out[i].flagged by {
        forall i | 0 <= i < |out| ensures !out[i].flagged {
          assert out[i] in out;
        }
      }
      Seqs.Tail(out, RECENT_DAYS)
  }

  /** `detect_anomalies`. */
  function Detect(daily: seq<DailyRow>, metric: string, t: real): (r: Result<seq<AnomalyRow>, AnomalyError>)
    ensures daily == [] ==> r == Success([])
    ensures ColumnOf(metric).None? ==> r == Success([])
    ensures r.Failure? <==> daily != [] && ColumnOf(metric) == Some(DateColumn)
    ensures r.Success? && daily != [] && ColumnOf(metric).Some? ==>
      r.value == Select(ScoreTable(daily, metric, ColumnOf(metric).value, t))
  {
    if daily == [] then Success([])
    else match ColumnOf(metric)
      case None => Success([])
      case Some(DateColumn) => Failure(NonNumericMetric(metric))
      case Some(c) => Success(Select(ScoreTable(daily, metric, c, t)))
  }

  /** Every row's flag is `detect_anomalies`'s |z| >= t, for the population standard deviation `sd`. */
  lemma ScoreRowsAreZTests(daily: seq<DailyRow>, metric: string, c: Column, t: real, sd: real, i: nat)
    requires |daily| > 0 && c != DateColumn
    requires sd >= 0.0 && sd * sd == Variance(Values(daily, c))
    requires i < |daily|
    ensures ScoreTable(daily, metric, c, t)[i].flagged <==>
      Abs(ZScore(ScoreTable(daily, metric, c, t)[i].deviation, sd)) >= t
  {
    var row := ScoreTable(daily, metric, c, t)[i];
    FlagIsZTest(row.deviation, row.variance, sd, t);
  }

  /** Squares of zeros sum to zero. */
  lemma {:induction false} SumOfSquaresOfZeros(ds: seq<real>)
    requires forall i :: 0 <= i < |ds| ==> ds[i] == 0.0
    ensures SumOfSquares(ds) == 0.0
  {
    if |ds| > 0 {
      SumOfSquaresOfZeros(ds[1..]);
    }
  }

  /** A constant series has population variance 0. */
  lemma ConstantHasZeroVariance(vs: seq<real>)
    requires |vs| > 0
    requires forall i :: 0 <= i < |vs| ==> vs[i] == vs[0]
    ensures Mean(vs) == vs[0]
    ensures Variance(vs) == 0.0
  {
    MeanOfConstant(vs, vs[0]);
    SumOfSquaresOfZeros(Deviations(vs, vs[0]));
  }

  /** The sum of a constant sequence. */
  lemma {:induction false} SumConstant(vs: seq<real>, v: real)
    requires forall i :: 0 <= i < |vs| ==> vs[i] == v
    ensures Sum(vs) == |vs| as real * v
  {
    if |vs| > 0 {
      SumConstant(vs[1..], v);
    }
  }

  /** The mean of a constant series is that constant. */
  lemma MeanOfConstant(vs: seq<real>, v: real)
    requires |vs| > 0
    requires forall i :: 0 <= i < |vs| ==> vs[i] == v
    ensures Mean(vs) == v
  {
    SumConstant(vs, v);
    var n := |vs| as real;
    assert Sum(vs) == n * v;
    assert (n * v) / n == v;
  }

  /** Subtracting `k` from every value subtracts `n * k` from the sum. */
  lemma {:induction false} SumShift(vs: seq<real>, k: real)
    ensures Sum(Deviations(vs, k)) == Sum(vs) - |vs| as real * k
  {
    if |vs| > 0 {
      SumShift(vs[1..], k);
      assert Deviations(vs, k)[1..] == Deviations(vs[1..], k);
    }
  }

  /** Deviations from the population mean cancel out. */
  lemma DeviationsSumToZero(vs: seq<real>)
    requires |vs| > 0
    ensures Sum(Deviations(vs, Mean(vs))) == 0.0
  {
    SumShift(vs, Mean(vs));
  }

  /**
   * A column with standard deviation 0 has every z equal to 0, so with a
   * positive threshold nothing is flagged and the most recent min(14, n)
   * days come back, in order.
   */
  lemma ZeroSpreadFallsBack(daily: seq<DailyRow>, metric: string, t: real)
    requires |daily| > 0 && t > 0.0
    requires ColumnOf(metric).Some? && ColumnOf(metric).value != DateColumn
    requires Variance(Values(daily, ColumnOf(metric).value)) == 0.0
    ensures Detect(daily, metric, t).Success?
    ensures |Detect(daily, metric, t).value| == Seqs.Min(RECENT_DAYS, |daily|)
    ensures forall i :: 0 <= i < |Detect(daily, metric, t).value| ==>
      !Detect(daily, metric, t).value[i].flagged &&
      Detect(daily, metric, t).value[i].date == daily[|daily| - |Detect(daily, metric, t).value| + i].date
  {
    var out := ScoreTable(daily, metric, ColumnOf(metric).value, t);
    assert forall i :: 0 <= i < |out| ==> !out[i].flagged by {
      forall i | 0 <= i < |out| ensures !out[i].flagged {
        assert out[i].variance == 0.0;
      }
    }
    assert Detect(daily, metric, t) == Success(Select(out));
  }

  /** A threshold of 0 or below flags every day, so the whole table comes back. */
  lemma NonPositiveThresholdFlagsAll(daily: seq<DailyRow>, metric: string, t: real)
    requires |daily| > 0 && t <= 0.0
    requires ColumnOf(metric).Some? && ColumnOf(metric).value != DateColumn
    ensures Detect(daily, metric, t) == Success(ScoreTable(daily, metric, ColumnOf(metric).value, t))
  {
    var out := ScoreTable(daily, metric, ColumnOf(metric).value, t);
    Seqs.FilterAll(out, IsFlagged);
  }

  /**
   * Two days at 0.10 and 0.90: mean 0.5, variance 0.16 (sd 0.4), both
   * z-scores of size 1, so with threshold 3 neither is flagged and both
   * days come back.
   */
  lemma TwoDayScenario()
    ensures var daily := [DailyRow("2024-01-01", 10, 0, 0, 1, 0.1), DailyRow("2024-01-02", 10, 0, 0, 9, 0.9)];
      && Detect(daily, DEFAULT_METRIC, DEFAULT_Z_THRESHOLD).Success?
      && |Detect(daily, DEFAULT_METRIC, DEFAULT_Z_THRESHOLD).value| == 2
      && Detect(daily, DEFAULT_METRIC, DEFAULT_Z_THRESHOLD).value[0].deviation == -0.4
      && Detect(daily, DEFAULT_METRIC, DEFAULT_Z_THRESHOLD).value[1].variance == 0.16
      && !Detect(daily, DEFAULT_METRIC, DEFAULT_Z_THRESHOLD).value[1].flagged
  {
    var daily := [DailyRow("2024-01-01", 10, 0, 0, 1, 0.1), DailyRow("2024-01-02", 10, 0, 0, 9, 0.9)];
    var vs := Values(daily, ApproveRate);
    assert vs == [0.1, 0.9];
    assert vs[1..] == [0.9] && vs[1..][1..] == [];
    assert Sum(vs[1..]) == 0.9;
    assert Sum(vs) == 1.0;
    assert Mean(vs) == 0.5;
    var ds := Deviations(vs, 0.5);
    assert ds == [-0.4, 0.4];
    assert ds[1..] == [0.4] && ds[1..][1..] == [];
    assert SumOfSquares(ds[1..]) == 0.16;
    assert SumOfSquares(ds) == 0.32;
    assert Variance(vs) == 0.16;
    var out := ScoreTable(daily, DEFAULT_METRIC, ApproveRate, DEFAULT_Z_THRESHOLD);
    assert !out[0].flagged && !out[1].flagged;
  }
}
