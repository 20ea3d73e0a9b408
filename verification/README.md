# Rollout analytics core, modelled in Dafny

This project models the analytics layer of a funnel-experiment dashboard.
The events are funnel steps (impression → click → apply → approve), each tagged
with a date, a user, an experiment variant, a channel and a segment. The layer
has five parts, and each is a pure function over a table of events:

- **Event loader** (`Events`): checks that the six required columns are present.
  It lower-cases and strips `variant`, `channel`, `segment` and `step`, and
  silently drops rows whose step is not one of the four funnel steps.
- **Funnel summarizer** (`Funnel`): counts distinct users per step and computes
  four conversion rates. Each rate is 0 when its denominator count is 0.
- **Lift calculator** (`Lift`): takes the `control` and `test` rows, summarizes
  each arm separately, and emits one row per rate in a fixed order. The lift is
  0 whenever the control rate is 0.
- **Daily series builder** (`Daily`): counts distinct users per (date, step)
  and emits one row per date, ascending, with all four step columns filled
  (0 when absent). It adds the day's approvals over impressions.
- **Anomaly detector** (`Anomaly`): computes population z-scores of one daily
  column and flags a day when |z| ≥ threshold. If no day is flagged, it falls
  back to the last 14 days.

Supporting modules: `Wrappers` (Option/Result), `Seqs` (order-preserving
filter, tail) and `Text` (the ASCII part of `str.lower`/`str.strip`, and the
code-point order used to sort date strings).

Modelling choices:

- A raw table is its set of header names plus rows of six text fields.
- Dates are canonical `YYYY-MM-DD` strings, so sorting them by code point
  (`Text.Less`) sorts them by date.
- Rates, means and variances are exact `real`s.
- The anomaly detector never takes a square root. Each row carries its
  deviation from the mean and the population variance. The flag compares
  squares, and `Anomaly.FlagIsZTest` proves this equals the
  `|z| >= threshold` of `detect_anomalies` for the standard deviation.

Behaviours of `analytics.py` worth noting:

- Only `variant`, `channel`, `segment` and `step` are lower-cased and
  stripped. `user_id` keeps its case, and `date` is reformatted
  (analytics.py:17-21).
- With a threshold ≤ 0, every day is flagged, even in a constant series,
  because |z| ≥ 0 ≥ threshold (analytics.py:96,
  `Anomaly.NonPositiveThresholdFlagsAll`).
- `date` is a column of the daily series, so asking for it as the metric
  passes the column test. Converting it to float then raises
  (analytics.py:87). The model returns `Failure(NonNumericMetric)`.

## Model

| member | source | states |
|---|---|---|
| Events.ParseStep | analytics.py:8 | a step text is recognised exactly when it is one of the four names in `STEPS`, and then it names that step |
| Events.Missing | analytics.py:12-13 | the reported names are exactly the required columns absent from the header, and they stay sorted when the required list is sorted |
| Events.Load | analytics.py:10-23 | loading fails exactly when some required column is absent, and the error lists exactly those names, sorted. Otherwise the result is the step-bearing rows of the normalised table |
| Events.LoadedFieldsNormalized | analytics.py:18-23 | every loaded event has lower-case, stripped variant, channel, segment and step text |
| Events.NormalizeRow | analytics.py:18-21 | variant, channel, segment and step are each the lower-cased, stripped input text, so they have no capitals and no surrounding whitespace. Date and user id are carried over unchanged (so the user id keeps its case), and a row already in that form is left as it is |
| Events.NormalizeRows | analytics.py:18-21 | the column-wise normalisation keeps one row per input row, each the normalised form of the row at that position |
| Events.NormalizeAppend | analytics.py:18-21 | the normalisation works row by row: normalising two tables joined equals joining their normalised forms |
| Events.ToEvent | analytics.py:23 | a row whose step text is a funnel step becomes the event that writes back to exactly that row |
| Events.EventRowRoundTrip | analytics.py:23 | writing an event back as a row and reading it again gives the same event |
| Events.KeepSteps | analytics.py:23 | an event is kept exactly when its row occurs in the input, so rows with an unrecognised step are dropped and no others. The output is never longer than the input |
| Events.KeepAppend | analytics.py:23 | keeping steps distributes over concatenation, so kept rows keep their relative order |
| Events.DropUnrecognized | analytics.py:18-23 | appending a raw row whose normalised step is not a funnel step leaves the normalised, step-filtered events unchanged |
| Events.LoadDropsUnrecognized | analytics.py:10-23 | appending a raw row whose normalised step is not a funnel step leaves the whole load result unchanged, including whether and how it fails |
| Events.RecognizesPaddedSpelling | analytics.py:18-23 | a step spelled in any case and padded with whitespace on either side (" Click ", "CLICK") is kept, as that step |
| Text.Lower | analytics.py:18-21 | lower-casing keeps the length and maps each character through the ASCII lower-case map |
| Text.Trim | analytics.py:18-21 | the result has no whitespace at either end and is a slice of the input with only whitespace cut off both sides |
| Text.TrimPadded | analytics.py:18-21 | stripping whitespace padding from both sides of a non-empty trimmed text gives back exactly that text |
| Text.NormalizeIsNormalized | analytics.py:18-21 | normalised text has no capitals and no surrounding whitespace, and text already in that form is left unchanged |
| Text.NormalizeIdempotent | analytics.py:18-21 | normalising twice equals normalising once |
| Text.LessTransitive | analytics.py:72 | the string order used to sort dates is transitive |
| Text.LessTotal | analytics.py:72 | any two different date strings are ordered one way or the other |
| Text.Insert | analytics.py:65-72 | inserting a key into a strictly sorted key list keeps it strictly sorted, adding exactly that key |
| Text.SortedDistinct | analytics.py:65-72 | the group keys come out strictly ascending, once each, and are exactly the input keys |
| Funnel.DistinctUsers | analytics.py:25-26 | a user id is in the set exactly when some event at that step carries it (set semantics, not a row count) |
| Funnel.UniqueUsers | analytics.py:25-26 | the count is the number of distinct user ids among the events at that step, and it is positive exactly when some event is at that step |
| Funnel.UniqueUsersAtMostRows | analytics.py:25-26 | a step's distinct count is at most the number of rows at that step, and is 0 for an empty table |
| Funnel.DistinctUsersAppend | analytics.py:25-26 | the distinct users of two tables together are the union of each table's distinct users |
| Funnel.RepeatedUserCountsOnce | analytics.py:25-26 | an extra event for a user already counted at that step changes no step's count |
| Funnel.SafeRate | analytics.py:31-32 | the rate is never negative. With a positive denominator, rate × denominator = numerator. With a zero denominator it is 0. It is at most 1 when the numerator does not exceed the denominator |
| Funnel.RatesOf | analytics.py:34-39 | each named rate is the safe ratio of its numerator step's count over its denominator step's count |
| Funnel.Summarize | analytics.py:28-40 | each count is the size of the step's distinct-user set. Every rate is non-negative, 0 when its denominator count is 0, and the safe ratio of the two counts. An empty table gives all-zero counts |
| Funnel.SummaryIgnoresDuplicates | analytics.py:25-40 | listing every event twice changes no count and no rate |
| Funnel.RateAtMostOne | analytics.py:31-39 | when every user at the numerator step was also seen at the denominator step, that rate is at most 1 |
| Funnel.ScenarioRates | analytics.py:34-38 | counts 100/40/10/4 give click_over_impression 0.4 and approve_over_impression 0.04 |
| Lift.LiftPct | analytics.py:57 | with a positive control, lift × control = test − control, so lift is positive exactly when test beats control. Otherwise lift is exactly 0, whatever the test value |
| Lift.ArmOfExperiment | analytics.py:43-48 | taking one arm out of the control/test rows gives the same rows as taking it out of the whole table |
| Lift.LiftTable | analytics.py:42-59 | the table is empty exactly when no row is control or test. Otherwise it has four rows in the fixed rate order, spelled as the source lists them, with each arm's funnel rate and the lift between them |
| Lift.RateNamesInOrder | analytics.py:54 | the four rates, in table order, are spelled `click_over_impression`, `apply_over_click`, `approve_over_apply`, `approve_over_impression` |
| Lift.LiftIgnoresOtherVariants | analytics.py:43 | rows of other variants have no influence on the lift table |
| Daily.DayUsers | analytics.py:65-67 | a user is counted for (date, step) exactly when some event has that date, that step and that user |
| Daily.Dates | analytics.py:65-72 | the series' dates are strictly ascending and are exactly the dates occurring in the input |
| Daily.DayRow | analytics.py:65-80 | a day's four columns are its distinct-user counts per step, 0 when the step is absent, and its rate is approves/impressions, or 0 with no impressions |
| Daily.DailySeries | analytics.py:61-81 | one row per distinct input date, strictly ascending, each with all four distinct counts and the safe approval rate. The series is empty exactly when the input is |
| Daily.SeriesCoversDates | analytics.py:61-81 | a date has a row exactly when some event carries it |
| Daily.DayRowIsDailyFunnel | analytics.py:65-80 | a day's row equals the funnel summary of that day's events: counts and approve-over-impression rate |
| Anomaly.Variance | analytics.py:89 | the population variance (divisor N): it is never negative, and N times it is the sum of squared deviations from the mean |
| Anomaly.Mean | analytics.py:88 | the mean taken N times gives the total of the column |
| Anomaly.Flag | analytics.py:96 | a threshold ≤ 0 always flags. With a positive threshold, a zero variance (all z equal 0) never flags, and a flagged day has a non-zero deviation |
| Anomaly.FlagIsZTest | analytics.py:89-90 | for any non-negative sd whose square is the variance, the squared test equals \|z\| ≥ threshold, with z = 0 when sd is 0 |
| Anomaly.ScoreTable | analytics.py:87-96 | one row per day, in order, with that day's value, its deviation from the population mean, the variance and the flag |
| Anomaly.ScoreRowsAreZTests | analytics.py:90-96 | every row is flagged exactly when the z-score of `detect_anomalies` reaches the threshold |
| Anomaly.DeviationsSumToZero | analytics.py:88 | deviations from the population mean cancel out |
| Anomaly.ConstantHasZeroVariance | analytics.py:88-89 | a constant series has that constant as its mean and variance 0 |
| Anomaly.Select | analytics.py:98-99 | if any day is flagged, the result is exactly the flagged rows in original order (none unflagged). Otherwise it is the last min(14, n) rows, in order |
| Anomaly.Detect | analytics.py:83-99 | an empty series or an unknown metric gives an empty result. The date column of a non-empty series is an error. Otherwise the result is the flagged-or-recent selection of the z-score table |
| Anomaly.ColumnOf | analytics.py:84 | a metric name selects a column exactly when it is one of the six headers of the daily series, and the selected column has that name |
| Anomaly.ZeroSpreadFallsBack | analytics.py:89-99 | with standard deviation 0 and a positive threshold, nothing is flagged and exactly the last min(14, n) days come back |
| Anomaly.NonPositiveThresholdFlagsAll | analytics.py:96-99 | a threshold ≤ 0 flags every day, so the whole z-score table is returned |
| Anomaly.TwoDayScenario | analytics.py:83-99 | days at 0.10 and 0.90 have mean 0.5 and variance 0.16. With threshold 3 neither day is flagged, and both come back |
| Seqs.Filter | analytics.py:43 | the kept elements are exactly those of the input that satisfy the mask, and there are no more of them than input elements |
| Seqs.FilterAppend | analytics.py:43 | masking distributes over concatenation, which preserves relative order |
| Seqs.FilterNarrow | analytics.py:43-48 | masking with a weaker condition and then with a stronger one equals masking with the stronger one |
| Seqs.Tail | analytics.py:99 | the tail has min(k, n) elements, and they are the last ones of the input, in order |

## Left out

- Reading the CSV file (`pd.read_csv`, analytics.py:11): a raw table arrives as a set of header names and rows of six text fields. Extra columns are allowed in the header but carry no data in the model.
- Date parsing and reformatting (analytics.py:17), including its parse error: dates are taken to be canonical `YYYY-MM-DD` strings already.
- `astype(str)` of missing values (which yields `"nan"`) and `nunique` skipping missing user ids: every field is a string.
- Text.Lower: only ASCII capitals are lower-cased. Non-ASCII case mapping is not modelled.
- Text.Trim: only ASCII whitespace (tab to carriage return, the four separators 0x1C–0x1F, and space) is stripped. Non-ASCII whitespace is not.
- Events.Load: the error carries the sorted list of missing names, not the formatted message text.
- Floating point: rates, lifts, means and variances are exact reals, so rounding in `s.std` is not modelled (a constant series computed in floats could show a tiny non-zero deviation).
- Anomaly.ScoreTable: the z value is not stored as a number, because that needs a square root. A row keeps its deviation and the variance, and `Anomaly.FlagIsZTest` ties the flag to z for any square root of the variance.
- Anomaly.ZeroSpreadFallsBack: the converse (variance 0 implies a constant column) is not stated. Only "constant implies variance 0" is proved (`Anomaly.ConstantHasZeroVariance`).
- pandas mechanics such as pivot, fillna, column renaming and the column shape of empty frames: outputs are sequences of records, and an empty output is the empty sequence.
- `app.py` (routing, uploads, saving the active dataset, request filters, rendering, CSV export): web and file plumbing around the core.
