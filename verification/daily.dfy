/**
 * The daily series builder (`compute_daily_series`): distinct users per
 * (date, step) reshaped into one row per date, every step column present,
 * rows ascending by date, with the day's approvals over impressions.
 */
module Daily {
  import opened Events
  import opened Funnel
  import Text
  import Seqs

  /** One day of the series. */
  datatype DailyRow = DailyRow(
    date: string,
    impressions: nat,
    clicks: nat,
    applies: nat,
    approves: nat,
    approveRateOverImpression: real)

  function IsOnDate(d: string): Event -> bool {
    (e: Event) => e.date == d
  }

  /** The events of one calendar date, in table order. */
  function OnDate(es: seq<Event>, d: string): seq<Event> {
    Seqs.Filter(es, IsOnDate(d))
  }

  /** The distinct users of group (d, st). */
  function DayUsers(es: seq<Event>, d: string, st: Step): (users: set<string>)
    ensures forall u :: u in users <==> exists e :: e in es && e.date == d && e.step == st && e.userId == u
  {
    var users := DistinctUsers(OnDate(es, d), st);
    assert forall u :: u in users ==> exists e :: e in es && e.date == d && e.step == st && e.userId == u by {
      forall u | u in users
        ensures exists e :: e in es && e.date == d && e.step == st && e.userId == u
      {
        var e :| e in OnDate(es, d) && e.step == st && e.userId == u;
        assert IsOnDate(d)(e);
      }
    }
    assert forall e :: e in es && e.date == d ==> e in OnDate(es, d) by {
      forall e | e in es && e.date == d
        ensures e in OnDate(es, d)
      {
        assert IsOnDate(d)(e);
      }
    }
    users
  }

  /** The distinct dates of the table in ascending order (the group-by key, sorted). */
  function Dates(es: seq<Event>): (ds: seq<string>)
    ensures Text.StrictlySorted(ds)
    ensures forall d :: d in ds <==> exists e :: e in es && e.date == d
  {
    var column := seq(|es|, i requires 0 <= i < |es| => es[i].date);
    assert forall d :: d in column ==> exists e :: e in es && e.date == d by {
      forall d | d in column
        ensures exists e :: e in es && e.date == d
      {
        var i :| 0 <= i < |es| && column[i] == d;
        assert es[i] in es;
      }
    }
    assert forall e :: e in es ==> e.date in column by {
      forall e | e in es
        ensures e.date in column
      {
        var i :| 0 <= i < |es| && es[i] == e;
        assert column[i] == e.date;
      }
    }
    Text.SortedDistinct(column)
  }

  /** The row of date `d`: every step column filled, 0 when the step has no event that day. */
  function DayRow(es: seq<Event>, d: string): (row: DailyRow)
    ensures row.date == d
    ensures row.impressions == |DayUsers(es, d, Impression)|
    ensures row.clicks == |DayUsers(es, d, Click)|
    ensures row.applies == |DayUsers(es, d, Apply)|
    ensures row.approves == |DayUsers(es, d, Approve)|
    ensures row.approveRateOverImpression == SafeRate(row.approves, row.impressions)
  {
    var day := OnDate(es, d);
    var impressions := UniqueUsers(day, Impression);
    var approves := UniqueUsers(day, Approve);
    assert DayUsers(es, d, Impression) == DistinctUsers(day, Impression);
    DailyRow(d, impressions, UniqueUsers(day, Click), UniqueUsers(day, Apply), approves,
             SafeRate(approves, impressions))
  }

  /** `compute_daily_series`. */
  function DailySeries(es: seq<Event>): (rows: seq<DailyRow>)
    ensures |rows| == |Dates(es)| && forall i :: 0 <= i < |rows| ==> rows[i].date == Dates(es)[i]
    ensures forall i, j :: 0 <= i < j < |rows| ==> Text.Less(rows[i].date, rows[j].date)
    ensures forall i :: 0 <= i < |rows| ==>
      && rows[i].impressions == |DayUsers(es, rows[i].date, Impression)|
      && rows[i].clicks == |DayUsers(es, rows[i].date, Click)|
      && rows[i].applies == |DayUsers(es, rows[i].date, Apply)|
      && rows[i].approves == |DayUsers(es, rows[i].date, Approve)|
    ensures forall i :: 0 <= i < |rows| ==>
      rows[i].approveRateOverImpression == SafeRate(rows[i].approves, rows[i].impressions)
    ensures rows == [] <==> es == []
  {
    var ds := Dates(es);
    assert |es| > 0 ==> es[0].date in ds;
    seq(|ds|, i requires 0 <= i < |ds| => DayRow(es, ds[i]))
  }

  /** A date has a row in the series exactly when some event carries that date. */
  lemma {:induction false} SeriesCoversDates(es: seq<Event>, d: string)
    ensures (exists i :: 0 <= i < |DailySeries(es)| && DailySeries(es)[i].date == d) <==> (exists e :: e in es && e.date == d)
  {
    var rows := DailySeries(es);
    var ds := Dates(es);
    if exists e :: e in es && e.date == d {
      assert d in ds;
      var i :| 0 <= i < |ds| && ds[i] == d;
      assert rows[i].date == d;
    }
    if exists i :: 0 <= i < |rows| && rows[i].date == d {
      var i :| 0 <= i < |rows| && rows[i].date == d;
      assert ds[i] in ds;
    }
  }

  /** Each day's row is the funnel summary of that day's events. */
  lemma DayRowIsDailyFunnel(es: seq<Event>, d: string)
    ensures DayRow(es, d).impressions == Summarize(OnDate(es, d)).counts.impression
    ensures DayRow(es, d).clicks == Summarize(OnDate(es, d)).counts.click
    ensures DayRow(es, d).applies == Summarize(OnDate(es, d)).counts.apply
    ensures DayRow(es, d).approves == Summarize(OnDate(es, d)).counts.approve
    ensures DayRow(es, d).approveRateOverImpression == Summarize(OnDate(es, d)).rates.approveOverImpression
  {
  }
}
