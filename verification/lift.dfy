/**
 * The lift calculator (`compute_lift_table`): funnel rates of the `control`
 * and `test` arms side by side, with the relative lift of test over control.
 */
module Lift {
  import opened Events
  import opened Funnel
  import Seqs

  const CONTROL: string := "control"
  const TEST: string := "test"

  /** The metric column of the lift table, in the order the rows are emitted. */
  const LIFT_METRICS: seq<string> := ["click_over_impression", "apply_over_click", "approve_over_apply", "approve_over_impression"]

  /** A row that belongs to one of the two experiment arms. */
  predicate InExperiment(e: Event) {
    e.variant == CONTROL || e.variant == TEST
  }

  /** The row selector for one variant label. */
  function IsVariant(v: string): Event -> bool {
    (e: Event) => e.variant == v
  }

  function WithVariant(es: seq<Event>, v: string): seq<Event> {
    Seqs.Filter(es, IsVariant(v))
  }

  /** The rates, in table order, carry the metric names the lift table emits. */
  lemma RateNamesInOrder()
    ensures |RATES| == |LIFT_METRICS|
    ensures forall i :: 0 <= i < |RATES| ==> RateName(RATES[i]) == LIFT_METRICS[i]
  {
  }

  /** One row of the lift table. */
  datatype LiftRow = LiftRow(metric: Rate, control: real, test: real, liftPct: real)

  /** Relative lift of `t` over `c`; saturates to 0 when the control rate is not positive. */
  function LiftPct(c: real, t: real): (r: real)
    ensures c > 0.0 ==> r * c == t - c
    ensures c > 0.0 ==> (r > 0.0 <==> t > c) && (r == 0.0 <==> t == c)
    ensures c <= 0.0 ==> r == 0.0
  {
    if c > 0.0 then (t - c) / c else 0.0
  }

  /** Selecting one arm from the experiment rows is selecting it from the whole table. */
  lemma ArmOfExperiment(es: seq<Event>, v: string)
    requires v == CONTROL || v == TEST
    ensures WithVariant(Seqs.Filter(es, InExperiment), v) == WithVariant(es, v)
  {
    Seqs.FilterNarrow(es, InExperiment, IsVariant(v));
  }

  /** `compute_lift_table`. */
  function LiftTable(es: seq<Event>): (rows: seq<LiftRow>)
    ensures |rows| == 0 <==> forall e :: e in es ==> !InExperiment(e)
    ensures |rows| != 0 ==> |rows| == |RATES| && forall i :: 0 <= i < |rows| ==> rows[i].metric == RATES[i]
    ensures |rows| != 0 ==> |rows| == |LIFT_METRICS| && forall i :: 0 <= i < |rows| ==> RateName(rows[i].metric) == LIFT_METRICS[i]
    ensures forall i :: 0 <= i < |rows| ==>
      rows[i].control == Summarize(WithVariant(es, CONTROL)).rates.Get(rows[i].metric) &&
      rows[i].test == Summarize(WithVariant(es, TEST)).rates.Get(rows[i].metric)
    ensures forall i :: 0 <= i < |rows| ==> rows[i].liftPct == LiftPct(rows[i].control, rows[i].test)
  {
    var sub := Seqs.Filter(es, InExperiment);
    if |sub| == 0 then
      []
    else
      assert sub[0] in es && InExperiment(sub[0]);
      ArmOfExperiment(es, CONTROL);
      ArmOfExperiment(es, TEST);
      RateNamesInOrder();
      var c := Summarize(WithVariant(sub, CONTROL)).rates;
      var t := Summarize(WithVariant(sub, TEST)).rates;
      seq(|RATES|, i requires 0 <= i < |RATES| =>
        LiftRow(RATES[i], c.Get(RATES[i]), t.Get(RATES[i]), LiftPct(c.Get(RATES[i]), t.Get(RATES[i]))))
  }

  /** Rows outside the two arms have no influence on the lift table. */
  lemma LiftIgnoresOtherVariants(es: seq<Event>)
    ensures LiftTable(Seqs.Filter(es, InExperiment)) == LiftTable(es)
  {
    var sub := Seqs.Filter(es, InExperiment);
    Seqs.FilterAll(sub, InExperiment);
    ArmOfExperiment(es, CONTROL);
    ArmOfExperiment(es, TEST);
    ArmOfExperiment(sub, CONTROL);
    ArmOfExperiment(sub, TEST);
  }
}
