/** One metric of an account's analytics bundle (apps/analytics/services.py).

    The platform's own daily values and the series rebuilt from post snapshots are merged into
    one zero-filled series and a mask of the days that have a value. */
module AnalyticsBundle {
  import opened Wrappers
  import PD = PostDeltas
  import DM = DerivedMetrics

  datatype Metric = Metric(series: seq<real>, present: seq<bool>, estimated: bool)

  /** The days the post snapshots say something about. */
  function Observed(rows: seq<PD.Snapshot>, start: int): (days: set<int>) {
    PD.Measured(rows, |rows|) + PD.AllTouched(rows, start, |rows|)
  }

  /** The rebuilt series is used where the platform reports nothing, or reported earlier. */
  predicate UsesPosts(supported: bool, account: map<int, real>, captured: Option<int>, rows: seq<PD.Snapshot>,
                      start: int)
    requires captured.Some? <==> account != map[]
  {
    && supported && Observed(rows, start) != {}
    && (account == map[]
        || (PD.Latest(rows, |rows|).Some? && PD.Latest(rows, |rows|).value > captured.value))
  }

  /** A rebuilt day replaces the platform's value; the other days keep theirs. */
  function Merged(uses: bool, account: map<int, real>, rows: seq<PD.Snapshot>, start: int, d: int): (value: real) {
    if uses && d in PD.AllTouched(rows, start, |rows|) then PD.DayTotal(rows, start, |rows|, d)
    else PD.Get(account, d)
  }

  method MergeMetric(supported: bool, account: map<int, real>, captured: Option<int>, rows: seq<PD.Snapshot>,
                     start: int, days: DM.Days) returns (m: Metric)
    requires captured.Some? <==> account != map[]
    requires PD.InWindow(rows, start, start + 2 * days - 1)
    ensures m.estimated == UsesPosts(supported, account, captured, rows, start)
    ensures |m.series| == |m.present| == 2 * days
    ensures forall i | 0 <= i < 2 * days :: m.series[i] == Merged(m.estimated, account, rows, start, start + i)
    ensures forall i | 0 <= i < 2 * days ::
      m.present[i] <==> start + i in account || (m.estimated && start + i in Observed(rows, start))
  {
    var byDay, presentDays, estimated := account, account.Keys, false;
    if supported {
      var daily, captures, observed := PD.PostSummedSeries(false, rows, start, start + 2 * days - 1);
      if observed != {} {
        if account == map[] || (captures.Some? && captured.Some? && captures.value > captured.value) {
          byDay := byDay + daily;
          presentDays := presentDays + observed;
          estimated := true;
          forall d
            ensures PD.Get(byDay, d) == Merged(true, account, rows, start, d)
          {
            assert PD.Get(daily, d) == PD.DayTotal(rows, start, |rows|, d);
          }
        }
      }
    }
    var series := seq(2 * days, i => PD.Get(byDay, start + i));
    m := Metric(series, seq(2 * days, i => start + i in presentDays), estimated);
  }

  /* ---- Conservation up to the card ---- */

  /** What the platform reported for the days of [lo, hi) that were not rebuilt. */
  function AccountLeft(account: map<int, real>, rebuilt: set<int>, lo: int, hi: int): (total: real)
    requires lo <= hi
    decreases hi - lo
  {
    if lo == hi then 0.0
    else AccountLeft(account, rebuilt, lo, hi - 1) + if hi - 1 in rebuilt then 0.0 else PD.Get(account, hi - 1)
  }

  lemma {:induction false} UntouchedDayHasNoCredit(rows: seq<PD.Snapshot>, start: int, end: int, n: nat, d: int)
    requires n <= |rows| && PD.InWindow(rows, start, end) && d !in PD.AllTouched(rows, start, n)
    ensures PD.DayTotal(rows, start, n, d) == 0.0
  {
    if n > 0 {
      UntouchedDayHasNoCredit(rows, start, end, n - 1, d);
      PD.CreditIsPlacedRight(rows, start, end, n - 1, d);
    }
  }

  predicate MergedSeries(series: seq<real>, uses: bool, account: map<int, real>, rows: seq<PD.Snapshot>, start: int) {
    forall i | 0 <= i < |series| :: series[i] == Merged(uses, account, rows, start, start + i)
  }

  lemma {:induction false} PrefixTotal(series: seq<real>, account: map<int, real>, rows: seq<PD.Snapshot>,
                                       start: int, end: int, k: nat)
    requires MergedSeries(series, true, account, rows, start) && PD.InWindow(rows, start, end) && k <= |series|
    ensures DM.Sum(series[..k]) == PD.DaysTotal(rows, start, |rows|, start, start + k)
                                   + AccountLeft(account, PD.AllTouched(rows, start, |rows|), start, start + k)
  {
    if k > 0 {
      PrefixTotal(series, account, rows, start, end, k - 1);
      assert series[..k] == series[..k - 1] + [series[k - 1]];
      DM.SumConcat(series[..k - 1], [series[k - 1]]);
      if start + k - 1 !in PD.AllTouched(rows, start, |rows|) {
        UntouchedDayHasNoCredit(rows, start, end, |rows|, start + k - 1);
      }
    }
  }

  /** A merged series adds up to what the posts gained plus what the platform reported for the
      days that were not rebuilt. */
  lemma MergedTotal(histories: seq<PD.History>, series: seq<real>, account: map<int, real>, start: int)
    requires PD.WellFormed(histories)
    requires PD.InWindow(PD.Rows(histories), start, start + |series| - 1)
    requires MergedSeries(series, true, account, PD.Rows(histories), start)
    ensures var rows := PD.Rows(histories);
      DM.Sum(series) == PD.PeaksLessAnchors(histories, start)
                        + AccountLeft(account, PD.AllTouched(rows, start, |rows|), start, start + |series|)
  {
    PrefixTotal(series, account, PD.Rows(histories), start, start + |series| - 1, |series|);
    assert series[..|series|] == series;
    PD.NothingIsLostOrInvented(histories, start, start + |series| - 1);
  }

  lemma {:induction false} NothingReported(rebuilt: set<int>, lo: int, hi: int)
    requires lo <= hi
    ensures AccountLeft(map[], rebuilt, lo, hi) == 0.0
    decreases hi - lo
  {
    if lo < hi { NothingReported(rebuilt, lo, hi - 1); }
  }

  /** Nothing observed means nothing credited, so leaving the rebuilt series out changes nothing. */
  lemma UnobservedIsZero(rows: seq<PD.Snapshot>, start: int, end: int, series: seq<real>)
    requires PD.InWindow(rows, start, end) && Observed(rows, start) == {}
    requires MergedSeries(series, false, map[], rows, start)
    ensures MergedSeries(series, true, map[], rows, start)
  {
    forall i | 0 <= i < |series|
      ensures series[i] == Merged(true, map[], rows, start, start + i)
    {
      assert start + i !in PD.AllTouched(rows, start, |rows|) by {
        assert start + i !in Observed(rows, start);
      }
    }
  }

  /** Main result 1. For a counted metric the platform does not report, the card's value and the
      value it is compared with add up to exactly what every post gained over both periods. */
  lemma CardsAccountForEveryGain(histories: seq<PD.History>, start: int, days: DM.Days, m: Metric)
    requires PD.WellFormed(histories) && |m.series| == |m.present| == 2 * days
    requires PD.InWindow(PD.Rows(histories), start, start + 2 * days - 1)
    requires m.estimated == UsesPosts(true, map[], None, PD.Rows(histories), start)
    requires MergedSeries(m.series, m.estimated, map[], PD.Rows(histories), start)
    ensures DM.Derive(m.series, days, DM.Count, Some(m.present)).value
            + DM.WindowValue(DM.Earlier(m.series, days), Some(DM.Earlier(m.present, days)), DM.Count)
            == PD.PeaksLessAnchors(histories, start)
  {
    UnreportedTotal(histories, m.series, start, m.estimated);
    BothPeriods(m.series, m.present, days);
  }

  lemma UnreportedTotal(histories: seq<PD.History>, series: seq<real>, start: int, uses: bool)
    requires PD.WellFormed(histories) && PD.InWindow(PD.Rows(histories), start, start + |series| - 1)
    requires MergedSeries(series, uses, map[], PD.Rows(histories), start)
    requires uses || Observed(PD.Rows(histories), start) == {}
    ensures DM.Sum(series) == PD.PeaksLessAnchors(histories, start)
  {
    var rows := PD.Rows(histories);
    if !uses {
      UnobservedIsZero(rows, start, start + |series| - 1, series);
    }
    MergedTotal(histories, series, map[], start);
    NothingReported(PD.AllTouched(rows, start, |rows|), start, start + |series|);
  }

  lemma BothPeriods(series: seq<real>, present: seq<bool>, days: DM.Days)
    requires |series| == 2 * days
    ensures DM.Derive(series, days, DM.Count, Some(present)).value
            + DM.WindowValue(DM.Earlier(series, days), Some(DM.Earlier(present, days)), DM.Count)
            == DM.Sum(series)
  {
    assert series == DM.Earlier(series, days) + DM.Tail(series, days);
    DM.SumConcat(DM.Earlier(series, days), DM.Tail(series, days));
  }

  /** A day that the bundle does not mark as present counts as zero. */
  lemma AbsentIsZero(uses: bool, account: map<int, real>, rows: seq<PD.Snapshot>, start: int, d: int)
    requires d !in account && !(uses && d in Observed(rows, start))
    ensures Merged(uses, account, rows, start, d) == 0.0
  {
  }

  /** Main result 2. The value on the card of any counted metric is the sum of the points its
      chart shows. */
  lemma CardsMatchTheirCharts(account: map<int, real>, rows: seq<PD.Snapshot>, start: int, days: DM.Days, m: Metric)
    requires |m.series| == |m.present| == 2 * days
    requires MergedSeries(m.series, m.estimated, account, rows, start)
    requires forall i | 0 <= i < 2 * days ::
      m.present[i] <==> start + i in account || (m.estimated && start + i in Observed(rows, start))
    ensures var card := DM.Derive(m.series, days, DM.Count, Some(m.present));
      card.value == DM.Sum(DM.Points(card.series))
  {
    forall i | 0 <= i < 2 * days && !m.present[i]
      ensures m.series[i] == 0.0
    {
      AbsentIsZero(m.estimated, account, rows, start, start + i);
    }
    DM.CountIsTheSumOfTheChart(m.series, days, m.present);
  }

  /** Main result 3. A metric is estimated if and only if it supports the rebuilt series, some post
      snapshot observed a day, and the platform reported nothing, or some snapshot was captured
      after the last of its reports. */
  lemma EstimatedIff(supported: bool, account: map<int, real>, captured: Option<int>, rows: seq<PD.Snapshot>,
                     start: int)
    requires captured.Some? <==> account != map[]
    ensures UsesPosts(supported, account, captured, rows, start) <==>
      && supported && (exists k, d | 0 <= k < |rows| :: PD.Observes(rows, start, k, d))
      && (captured.None?
          || exists k | 0 <= k < |rows| :: rows[k].capturedAt.Some? && captured.value < rows[k].capturedAt.value)
  {
    PD.SomethingObservedIff(rows, start, |rows|);
    var latest := PD.Latest(rows, |rows|);
    if latest.Some? {
      var k :| 0 <= k < |rows| && rows[k].capturedAt == latest;
    }
  }

  /** A day of the merged series, from the rows themselves. */
  lemma MergedDay(uses: bool, account: map<int, real>, rows: seq<PD.Snapshot>, start: int, d: int)
    ensures var credited := uses && exists k | 0 <= k < |rows| :: PD.Credits(rows, start, k, d);
      Merged(uses, account, rows, start, d)
      == if credited then PD.DayTotal(rows, start, |rows|, d) else if d in account then account[d] else 0.0
  {
    PD.CreditedIff(rows, start, |rows|, d);
  }
}
