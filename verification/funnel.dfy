/**
 * The funnel summarizer (`_unique_users`, `compute_funnel_summary`): distinct
 * users per step and the four conversion rates, each 0 when its denominator
 * count is 0.
 */
module Funnel {
  import opened Events
  import Seqs

  /** The events at step `st`, in table order. */
  function AtStep(es: seq<Event>, st: Step): seq<Event> {
    Seqs.Filter(es, (e: Event) => e.step == st)
  }

  /** The set of user ids seen at step `st`, accumulated row by row. */
  function DistinctUsers(es: seq<Event>, st: Step): (users: set<string>)
    ensures forall u :: u in users <==> exists e :: e in es && e.step == st && e.userId == u
  {
    if |es| == 0 then {}
    else
      var rest := DistinctUsers(es[1..], st);
      assert es == [es[0]] + es[1..];
      if es[0].step == st then rest + {es[0].userId} else rest
  }

  /** `_unique_users`: the number of distinct user ids at a step. */
  function UniqueUsers(es: seq<Event>, st: Step): (n: nat)
    ensures n == |set e | e in es && e.step == st :: e.userId|
    ensures n > 0 <==> exists e :: e in es && e.step == st
  {
    var users := DistinctUsers(es, st);
    assert (exists e :: e in es && e.step == st) ==> users != {} by {
      if e :| e in es && e.step == st {
        assert e.userId in users;
      }
    }
    assert users == set e | e in es && e.step == st :: e.userId;
    |users|
  }

  /** A distinct count never exceeds the row count at that step, and is 0 for an empty table. */
  lemma {:induction false} UniqueUsersAtMostRows(es: seq<Event>, st: Step)
    ensures UniqueUsers(es, st) <= |AtStep(es, st)|
    ensures es == [] ==> UniqueUsers(es, st) == 0
  {
    if |es| > 0 {
      UniqueUsersAtMostRows(es[1..], st);
      var rest := DistinctUsers(es[1..], st);
      assert es == [es[0]] + es[1..];
      if es[0].step == st {
        assert |DistinctUsers(es, st)| <= |rest| + 1 by {
          assert DistinctUsers(es, st) == rest + {es[0].userId};
        }
        assert |AtStep(es, st)| == |AtStep(es[1..], st)| + 1;
      } else {
        assert DistinctUsers(es, st) == rest;
        assert AtStep(es, st) == AtStep(es[1..], st);
      }
    }
  }

  /** The distinct users of a concatenation are the union of both parts' distinct users. */
  lemma DistinctUsersAppend(a: seq<Event>, b: seq<Event>, st: Step)
    ensures DistinctUsers(a + b, st) == DistinctUsers(a, st) + DistinctUsers(b, st)
  {
    forall u | u in DistinctUsers(a + b, st)
      ensures u in DistinctUsers(a, st) + DistinctUsers(b, st)
    {
      var e :| e in a + b && e.step == st && e.userId == u;
      if e in a {
        assert u in DistinctUsers(a, st);
      } else {
        assert u in DistinctUsers(b, st);
      }
    }
  }

  /** A user seen again at a step already counted for them does not change that step's count. */
  lemma RepeatedUserCountsOnce(es: seq<Event>, e: Event, st: Step)
    requires e.userId in DistinctUsers(es, e.step)
    ensures UniqueUsers(es + [e], st) == UniqueUsers(es, st)
  {
    DistinctUsersAppend(es, [e], st);
    if e.step == st {
      assert DistinctUsers([e], st) == {e.userId};
    } else {
      assert DistinctUsers([e], st) == {};
    }
    assert DistinctUsers(es + [e], st) == DistinctUsers(es, st);
  }

  /** The per-step distinct counts. */
  datatype Counts = Counts(impression: nat, click: nat, apply: nat, approve: nat) {
    function Get(st: Step): nat {
      match st
      case Impression => impression
      case Click => click
      case Apply => apply
      case Approve => approve
    }
  }

  /** The four conversion rates, in the order the summary and the lift table list them. */
  datatype Rate = ClickOverImpression | ApplyOverClick | ApproveOverApply | ApproveOverImpression

  const RATES: seq<Rate> := [ClickOverImpression, ApplyOverClick, ApproveOverApply, ApproveOverImpression]

  function RateName(m: Rate): string {
    match m
    case ClickOverImpression => "click_over_impression"
    case ApplyOverClick => "apply_over_click"
    case ApproveOverApply => "approve_over_apply"
    case ApproveOverImpression => "approve_over_impression"
  }

  function Numerator(m: Rate): Step {
    match m
    case ClickOverImpression => Click
    case ApplyOverClick => Apply
    case ApproveOverApply => Approve
    case ApproveOverImpression => Approve
  }

  function Denominator(m: Rate): Step {
    match m
    case ClickOverImpression => Impression
    case ApplyOverClick => Click
    case ApproveOverApply => Apply
    case ApproveOverImpression => Impression
  }

  /** The rate values, one per rate name. */
  datatype Rates = Rates(clickOverImpression: real, applyOverClick: real, approveOverApply: real, approveOverImpression: real) {
    function Get(m: Rate): real {
      match m
      case ClickOverImpression => clickOverImpression
      case ApplyOverClick => applyOverClick
      case ApproveOverApply => approveOverApply
      case ApproveOverImpression => approveOverImpression
    }
  }

  datatype Summary = Summary(counts: Counts, rates: Rates)

  /** `safe_rate`: n/d for a positive denominator, 0 otherwise; never undefined. */
  function SafeRate(n: nat, d: nat): (r: real)
    ensures r >= 0.0
    ensures d > 0 ==> r * d as real == n as real
    ensures d == 0 ==> r == 0.0
    ensures n <= d ==> r <= 1.0
  {
    if d > 0 then n as real / d as real else 0.0
  }

  /** The rates a set of counts determines. */
  function RatesOf(c: Counts): (r: Rates)
    ensures forall m :: r.Get(m) == SafeRate(c.Get(Numerator(m)), c.Get(Denominator(m)))
  {
    Rates(SafeRate(c.click, c.impression), SafeRate(c.apply, c.click),
          SafeRate(c.approve, c.apply), SafeRate(c.approve, c.impression))
  }

  /** `compute_funnel_summary`. */
  function Summarize(es: seq<Event>): (s: Summary)
    ensures forall st :: s.counts.Get(st) == |DistinctUsers(es, st)|
    ensures forall m :: s.rates.Get(m) >= 0.0
    ensures forall m :: s.counts.Get(Denominator(m)) == 0 ==> s.rates.Get(m) == 0.0
    ensures forall m :: s.rates.Get(m) == SafeRate(s.counts.Get(Numerator(m)), s.counts.Get(Denominator(m)))
    ensures es == [] ==> forall st :: s.counts.Get(st) == 0
  {
    var c := Counts(UniqueUsers(es, Impression), UniqueUsers(es, Click),
                    UniqueUsers(es, Apply), UniqueUsers(es, Approve));
    Summary(c, RatesOf(c))
  }

  /** Listing every event twice changes no count and no rate: counting is by distinct user. */
  lemma SummaryIgnoresDuplicates(es: seq<Event>)
    ensures Summarize(es + es) == Summarize(es)
  {
    forall st: Step
      ensures DistinctUsers(es + es, st) == DistinctUsers(es, st)
    {
      DistinctUsersAppend(es, es, st);
    }
  }

  /** When every user at the numerator step was also seen at the denominator step, the rate is at most 1. */
  lemma RateAtMostOne(es: seq<Event>, m: Rate)
    requires DistinctUsers(es, Numerator(m)) <= DistinctUsers(es, Denominator(m))
    ensures Summarize(es).rates.Get(m) <= 1.0
  {
    SubsetCard(DistinctUsers(es, Numerator(m)), DistinctUsers(es, Denominator(m)));
  }

  lemma {:induction false} SubsetCard(a: set<string>, b: set<string>)
    requires a <= b
    ensures |a| <= |b|
  {
    if a != {} {
      var x :| x in a;
      SubsetCard(a - {x}, b - {x});
    }
  }

  /** 100, 40, 10 and 4 distinct users give a click rate of 0.4 and an overall approval rate of 0.04. */
  lemma ScenarioRates()
    ensures RatesOf(Counts(100, 40, 10, 4)).clickOverImpression == 0.4
    ensures RatesOf(Counts(100, 40, 10, 4)).approveOverImpression == 0.04
  {
  }
}
