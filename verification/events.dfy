/**
 * The event loader (`load_events_csv`): the required-column check, the
 * per-field normalisation and the silent drop of rows whose step is not a
 * funnel step. Parsing the CSV text and reformatting dates are outside the
 * model: a raw table arrives as its header and its rows, and dates are
 * already canonical `YYYY-MM-DD` strings.
 */
module Events {
  import opened Wrappers
  import Text

  /** The four funnel steps, in funnel order. */
  datatype Step = Impression | Click | Apply | Approve

  const STEPS: seq<Step> := [Impression, Click, Apply, Approve]

  /** The spelling of a step in the data. */
  function StepName(st: Step): string {
    match st
    case Impression => "impression"
    case Click => "click"
    case Apply => "apply"
    case Approve => "approve"
  }

  /** Recognise a step spelling; exactly the four names of `STEPS` are accepted. */
  function ParseStep(s: string): (r: Option<Step>)
    ensures r.Some? <==> exists i :: 0 <= i < |STEPS| && StepName(STEPS[i]) == s
    ensures r.Some? ==> r.value in STEPS && StepName(r.value) == s
  {
    if s == "impression" then assert StepName(STEPS[0]) == s; Some(Impression)
    else if s == "click" then assert StepName(STEPS[1]) == s; Some(Click)
    else if s == "apply" then assert StepName(STEPS[2]) == s; Some(Apply)
    else if s == "approve" then assert StepName(STEPS[3]) == s; Some(Approve)
    else None
  }

  lemma ParseStepName(st: Step)
    ensures ParseStep(StepName(st)) == Some(st)
  {
  }

  /** One normalised funnel event. */
  datatype Event = Event(date: string, userId: string, variant: string, channel: string, segment: string, step: Step)

  /** One row of the raw table, every field as text. */
  datatype RawRow = RawRow(date: string, userId: string, variant: string, channel: string, segment: string, step: string)

  /** A raw table: the names in its header and its rows. */
  datatype RawTable = RawTable(columns: set<string>, rows: seq<RawRow>)

  /** The columns the loader requires, listed in sorted order. */
  const REQUIRED_COLUMNS: seq<string> := ["channel", "date", "segment", "step", "user_id", "variant"]

  /** The loader's only error here: the sorted names of the required columns the header lacks. */
  datatype LoadError = MissingColumns(names: seq<string>)

  lemma RequiredColumnsSorted()
    ensures Text.StrictlySorted(REQUIRED_COLUMNS)
  {
  }

  /** The entries of `required` absent from `columns`, in the order of `required`. */
  function Missing(required: seq<string>, columns: set<string>): (names: seq<string>)
    ensures forall c :: c in names <==> c in required && c !in columns
    ensures Text.StrictlySorted(required) ==> Text.StrictlySorted(names)
  {
    if |required| == 0 then []
    else
      var rest := Missing(required[1..], columns);
      assert Text.StrictlySorted(required) ==> forall c :: c in rest ==> Text.Less(required[0], c);
      if required[0] in columns then rest else [required[0]] + rest
  }

  /** A raw row after the per-field normalisation: variant, channel, segment and step lower-cased and stripped. */
  function NormalizeRow(r: RawRow): (n: RawRow)
    ensures n.date == r.date && n.userId == r.userId
    ensures n.variant == Text.Normalize(r.variant) && n.channel == Text.Normalize(r.channel)
    ensures n.segment == Text.Normalize(r.segment) && n.step == Text.Normalize(r.step)
    ensures Text.IsNormalized(n.variant) && Text.IsNormalized(n.channel)
    ensures Text.IsNormalized(n.segment) && Text.IsNormalized(n.step)
    ensures (Text.IsNormalized(r.variant) && Text.IsNormalized(r.channel) &&
             Text.IsNormalized(r.segment) && Text.IsNormalized(r.step)) ==> n == r
  {
    Text.NormalizeIsNormalized(r.variant);
    Text.NormalizeIsNormalized(r.channel);
    Text.NormalizeIsNormalized(r.segment);
    Text.NormalizeIsNormalized(r.step);
    RawRow(r.date, r.userId, Text.Normalize(r.variant), Text.Normalize(r.channel),
           Text.Normalize(r.segment), Text.Normalize(r.step))
  }

  /** The whole table after normalisation, row by row. */
  function NormalizeRows(rows: seq<RawRow>): (ns: seq<RawRow>)
    ensures |ns| == |rows|
    ensures forall i :: 0 <= i < |rows| ==> ns[i] == NormalizeRow(rows[i])
  {
    if |rows| == 0 then [] else [NormalizeRow(rows[0])] + NormalizeRows(rows[1..])
  }

  /** A (normalised) row whose step is one of the four funnel steps. */
  predicate HasStep(r: RawRow) {
    ParseStep(r.step).Some?
  }

  /** An event written back as a row of text fields. */
  function EventRow(e: Event): (r: RawRow)
    ensures HasStep(r)
  {
    ParseStepName(e.step);
    RawRow(e.date, e.userId, e.variant, e.channel, e.segment, StepName(e.step))
  }

  /** The event a kept row becomes; `EventRow` undoes it. */
  function ToEvent(r: RawRow): (e: Event)
    requires HasStep(r)
    ensures EventRow(e) == r
  {
    Event(r.date, r.userId, r.variant, r.channel, r.segment, ParseStep(r.step).value)
  }

  lemma EventRowRoundTrip(e: Event)
    ensures ToEvent(EventRow(e)) == e
  {
    ParseStepName(e.step);
  }

  /** The rows whose step is a funnel step, as events, in input order. */
  function KeepSteps(rows: seq<RawRow>): (es: seq<Event>)
    ensures |es| <= |rows|
    ensures forall e :: e in es <==> EventRow(e) in rows
  {
    if |rows| == 0 then []
    else
      var rest := KeepSteps(rows[1..]);
      assert rows == [rows[0]] + rows[1..];
      if HasStep(rows[0]) then
        var e := ToEvent(rows[0]);
        assert forall x :: x in [e] + rest <==> x == e || x in rest;
        forall x | EventRow(x) == rows[0] ensures x == e {
          EventRowRoundTrip(x);
        }
        [e] + rest
      else rest
  }

  /** A raw row the loader keeps: its step is a funnel step once normalised. */
  predicate Recognized(r: RawRow) {
    HasStep(NormalizeRow(r))
  }

  /** `load_events_csv` after the CSV has been read. */
  function Load(t: RawTable): (r: Result<seq<Event>, LoadError>)
    ensures r.Failure? <==> exists c :: c in REQUIRED_COLUMNS && c !in t.columns
    ensures r.Failure? ==> Text.StrictlySorted(r.error.names)
    ensures r.Failure? ==> forall c :: c in r.error.names <==> c in REQUIRED_COLUMNS && c !in t.columns
    ensures r.Success? ==> r.value == KeepSteps(NormalizeRows(t.rows))
  {
    var missing := Missing(REQUIRED_COLUMNS, t.columns);
    RequiredColumnsSorted();
    if |missing| > 0 then
      assert missing[0] in REQUIRED_COLUMNS && missing[0] !in t.columns;
      Failure(MissingColumns(missing))
    else
      Success(KeepSteps(NormalizeRows(t.rows)))
  }

  /** Keeping steps preserves the relative order of rows: it distributes over concatenation. */
  lemma {:induction false} KeepAppend(a: seq<RawRow>, b: seq<RawRow>)
    ensures KeepSteps(a + b) == KeepSteps(a) + KeepSteps(b)
  {
    if |a| == 0 {
      assert a + b == b;
    } else {
      assert (a + b)[1..] == a[1..] + b;
      KeepAppend(a[1..], b);
    }
  }

  /** Normalisation works row by row, so it distributes over concatenation. */
  lemma {:induction false} NormalizeAppend(a: seq<RawRow>, b: seq<RawRow>)
    ensures NormalizeRows(a + b) == NormalizeRows(a) + NormalizeRows(b)
  {
    if |a| == 0 {
      assert a + b == b;
    } else {
      assert (a + b)[1..] == a[1..] + b;
      NormalizeAppend(a[1..], b);
    }
  }

  /** A row with an unrecognised step contributes nothing to the loaded events. */
  lemma DropUnrecognized(rows: seq<RawRow>, r: RawRow)
    requires !Recognized(r)
    ensures KeepSteps(NormalizeRows(rows + [r])) == KeepSteps(NormalizeRows(rows))
  {
    var ns := NormalizeRows(rows);
    NormalizeAppend(rows, [r]);
    assert NormalizeRows([r]) == [NormalizeRow(r)];
    KeepAppend(ns, [NormalizeRow(r)]);
    assert KeepSteps([NormalizeRow(r)]) == [];
  }

  /**
   * A step spelled in any case and padded with whitespace on either side is
   * recognised, and as that step: " Click " and "CLICK" both load as clicks.
   */
  lemma RecognizesPaddedSpelling(r: RawRow, st: Step, lo: nat, hi: nat)
    requires lo <= hi <= |r.step|
    requires Text.AllSpace(r.step[..lo]) && Text.AllSpace(r.step[hi..])
    requires Text.Lower(r.step[lo..hi]) == StepName(st)
    ensures Recognized(r) && ParseStep(NormalizeRow(r).step) == Some(st)
  {
    var s := r.step;
    var a, m, b := s[..lo], s[lo..hi], s[hi..];
    assert s == a + m + b;
    Text.LowerConcat(a + m, b);
    Text.LowerConcat(a, m);
    Text.LowerKeepsSpace(a);
    Text.LowerKeepsSpace(b);
    assert Text.Lower(s) == a + StepName(st) + b;
    Text.TrimPadded(a, StepName(st), b);
    ParseStepName(st);
  }

  /** Loading a table with one more row whose step is not recognised gives the same result, failure included. */
  lemma LoadDropsUnrecognized(t: RawTable, r: RawRow)
    requires !Recognized(r)
    ensures Load(RawTable(t.columns, t.rows + [r])) == Load(t)
  {
    DropUnrecognized(t.rows, r);
  }

  /** Every loaded event has normalised variant, channel, segment and step text. */
  lemma LoadedFieldsNormalized(t: RawTable)
    ensures Load(t).Success? ==> forall e :: e in Load(t).value ==>
      Text.IsNormalized(e.variant) && Text.IsNormalized(e.channel) &&
      Text.IsNormalized(e.segment) && Text.IsNormalized(StepName(e.step))
  {
    var ns := NormalizeRows(t.rows);
    assert forall e :: e in KeepSteps(ns) ==> EventRow(e) in ns;
  }
}
