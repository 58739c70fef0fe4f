/** Daily series rebuilt from cumulative post snapshots (apps/analytics/services.py).

    Snapshots hold lifetime totals. The series credits each day with what a post gained, never
    below its high-water mark; the law is that nothing is lost or invented: the series sums to
    what every post gained inside the window. Days are integers, values exact reals. */
module PostDeltas {
  import opened Wrappers

  datatype Snapshot = Snapshot(post: nat, publishedOn: Option<int>, day: int, value: real, capturedAt: Option<int>)

  function Max(a: real, b: real): real { if a > b then a else b }

  predicate InWindow(rows: seq<Snapshot>, start: int, end: int) {
    forall k | 0 <= k < |rows| :: start <= rows[k].day <= end
  }

  /** The first in-window observation of a post. */
  predicate First(rows: seq<Snapshot>, k: nat)
    requires k < |rows|
  {
    k == 0 || rows[k - 1].post != rows[k].post
  }

  /** The post's high-water mark up to row k. */
  function Peak(rows: seq<Snapshot>, k: nat): real
    requires k < |rows|
  {
    if First(rows, k) then rows[k].value else Max(Peak(rows, k - 1), rows[k].value)
  }

  /** The post was published before the window: its first value is mostly older activity. */
  predicate Predates(row: Snapshot, start: int) {
    row.publishedOn.Some? && row.publishedOn.value <= row.day && row.publishedOn.value < start
  }

  /** The days a first observation is spread over. */
  function SpreadFrom(row: Snapshot): (from: int)
    ensures from <= row.day
  {
    if row.publishedOn.Some? && row.publishedOn.value <= row.day then row.publishedOn.value else row.day
  }

  /** What a post's first observation adds to day d. */
  function FirstCredit(row: Snapshot, start: int, d: int): real {
    if Predates(row, start) || !(SpreadFrom(row) <= d <= row.day) then 0.0
    else row.value / (row.day - SpreadFrom(row) + 1) as real
  }

  /** What row k adds to day d. */
  function Credit(rows: seq<Snapshot>, start: int, k: nat, d: int): real
    requires k < |rows|
  {
    if First(rows, k) then FirstCredit(rows[k], start, d)
    else if d == rows[k].day then Max(rows[k].value - Peak(rows, k - 1), 0.0)
    else 0.0
  }

  /** What the first n rows add to day d. */
  function DayTotal(rows: seq<Snapshot>, start: int, n: nat, d: int): real
    requires n <= |rows|
  {
    if n == 0 then 0.0 else DayTotal(rows, start, n - 1, d) + Credit(rows, start, n - 1, d)
  }

  function Get(out: map<int, real>, d: int): real {
    if d in out then out[d] else 0.0
  }

  function Days(first: int, last: int): (days: set<int>)
    ensures forall d :: d in days <==> first <= d <= last
    decreases last - first
  {
    if first > last then {} else Days(first, last - 1) + {last}
  }

  /** The days row k writes to, even when what it adds is zero. */
  function Touched(rows: seq<Snapshot>, start: int, k: nat): set<int>
    requires k < |rows|
  {
    var row := rows[k];
    if First(rows, k) then
      if Predates(row, start) then {} else Days(SpreadFrom(row), row.day)
    else if row.value > Peak(rows, k - 1) then {row.day}
    else {}
  }

  function AllTouched(rows: seq<Snapshot>, start: int, n: nat): set<int>
    requires n <= |rows|
  {
    if n == 0 then {} else AllTouched(rows, start, n - 1) + Touched(rows, start, n - 1)
  }

  /** The days a later observation was measured on, whether or not anything was gained. */
  function Measured(rows: seq<Snapshot>, n: nat): set<int>
    requires n <= |rows|
  {
    if n == 0 then {} else Measured(rows, n - 1) + if First(rows, n - 1) then {} else {rows[n - 1].day}
  }

  function Latest(rows: seq<Snapshot>, n: nat): (latest: Option<int>)
    requires n <= |rows|
    ensures forall k | 0 <= k < n && rows[k].capturedAt.Some? ::
      latest.Some? && rows[k].capturedAt.value <= latest.value
    ensures latest.Some? ==> exists k | 0 <= k < n :: rows[k].capturedAt == latest
  {
    if n == 0 then None
    else
      var before, captured := Latest(rows, n - 1), rows[n - 1].capturedAt;
      if captured.Some? && (before.None? || captured.value > before.value) then captured else before
  }

  /** Adds an amount per day over [from, to], day by day. */
  method Spread(out: map<int, real>, from: int, to: int, start: int, end: int, perDay: real)
    returns (spread: map<int, real>)
    requires start <= from <= to <= end
    ensures spread.Keys == out.Keys + Days(from, to)
    ensures forall d :: Get(spread, d) == Get(out, d) + if from <= d <= to then perDay else 0.0
  {
    spread := out;
    var d := from;
    while d <= to
      invariant from <= d <= to + 1
      invariant spread.Keys == out.Keys + Days(from, d - 1)
      invariant forall x :: Get(spread, x) == Get(out, x) + if from <= x < d then perDay else 0.0
    {
      if start <= d <= end {
        spread := spread[d := Get(spread, d) + perDay];
      }
      d := d + 1;
    }
  }

  /** The three cases of a post's first observation. */
  method CreditFirst(out: map<int, real>, row: Snapshot, start: int, end: int) returns (credited: map<int, real>)
    requires start <= row.day <= end
    ensures credited.Keys == out.Keys + if Predates(row, start) then {} else Days(SpreadFrom(row), row.day)
    ensures forall d :: Get(credited, d) == Get(out, d) + FirstCredit(row, start, d)
  {
    credited := out;
    if row.publishedOn.None? || row.publishedOn.value > row.day {
      credited := out[row.day := Get(out, row.day) + row.value];
      assert Days(row.day, row.day) == {row.day};
    } else if row.publishedOn.value >= start {
      var days := row.day - row.publishedOn.value + 1;
      credited := Spread(out, row.publishedOn.value, row.day, start, end, row.value / days as real);
    }
  }

  /** `_post_summed_series_for_metric` over the rows its query returns. */
  method PostSummedSeries(youtube: bool, rows: seq<Snapshot>, start: int, end: int)
    returns (out: map<int, real>, maxCaptured: Option<int>, observed: set<int>)
    requires InWindow(rows, start, end)
    ensures youtube ==> out == map[] && maxCaptured == None && observed == {}
    ensures !youtube ==> forall d :: Get(out, d) == DayTotal(rows, start, |rows|, d)
    ensures !youtube ==> out.Keys == AllTouched(rows, start, |rows|)
    ensures !youtube ==> observed == Measured(rows, |rows|) + out.Keys
    ensures !youtube ==> maxCaptured == Latest(rows, |rows|)
  {
    out, maxCaptured, observed := map[], None, {};
    if youtube {
      return;
    }
    var currentPost := None;
    var previous, firstObservation := 0.0, true;
    for k := 0 to |rows|
      invariant currentPost == if k == 0 then None else Some(rows[k - 1].post)
      invariant k > 0 ==> previous == Peak(rows, k - 1) && !firstObservation
      invariant forall d :: Get(out, d) == DayTotal(rows, start, k, d)
      invariant out.Keys == AllTouched(rows, start, k)
      invariant observed == Measured(rows, k) && maxCaptured == Latest(rows, k)
    {
      var row := rows[k];
      if Some(row.post) != currentPost {
        currentPost, firstObservation, previous := Some(row.post), true, 0.0;
      }
      if row.capturedAt.Some? && (maxCaptured.None? || row.capturedAt.value > maxCaptured.value) {
        maxCaptured := row.capturedAt;
      }
      if firstObservation {
        firstObservation := false;
        out := CreditFirst(out, row, start, end);
        previous := row.value;
        continue;
      }
      observed := observed + {row.day};
      var delta := row.value - previous;
      if delta <= 0.0 {
        continue;
      }
      previous := row.value;
      out := out[row.day := Get(out, row.day) + delta];
    }
    observed := observed + out.Keys;
  }

  /* ---- Conservation ---- */

  /** What row k adds to all days together: a first value unless it predates the window, then
      only what rises above the high-water mark. */
  function Gain(rows: seq<Snapshot>, start: int, k: nat): real
    requires k < |rows|
  {
    if First(rows, k) then (if Predates(rows[k], start) then 0.0 else rows[k].value)
    else Max(rows[k].value - Peak(rows, k - 1), 0.0)
  }

  function Gains(rows: seq<Snapshot>, start: int, n: nat): real
    requires n <= |rows|
  {
    if n == 0 then 0.0 else Gains(rows, start, n - 1) + Gain(rows, start, n - 1)
  }

  /** The first n rows' credit to the days of [lo, hi), and row k's. */
  function DaysTotal(rows: seq<Snapshot>, start: int, n: nat, lo: int, hi: int): real
    requires n <= |rows| && lo <= hi
    decreases hi - lo
  {
    if lo == hi then 0.0 else DaysTotal(rows, start, n, lo, hi - 1) + DayTotal(rows, start, n, hi - 1)
  }

  function RowTotal(rows: seq<Snapshot>, start: int, k: nat, lo: int, hi: int): real
    requires k < |rows| && lo <= hi
    decreases hi - lo
  {
    if lo == hi then 0.0 else RowTotal(rows, start, k, lo, hi - 1) + Credit(rows, start, k, hi - 1)
  }

  lemma {:induction false} DaysTotalByRow(rows: seq<Snapshot>, start: int, n: nat, lo: int, hi: int)
    requires n < |rows| && lo <= hi
    ensures DaysTotal(rows, start, n + 1, lo, hi)
      == DaysTotal(rows, start, n, lo, hi) + RowTotal(rows, start, n, lo, hi)
    decreases hi - lo
  {
    if lo < hi { DaysTotalByRow(rows, start, n, lo, hi - 1); }
  }

  lemma {:induction false} NoRowsNoTotal(rows: seq<Snapshot>, start: int, lo: int, hi: int)
    requires lo <= hi
    ensures DaysTotal(rows, start, 0, lo, hi) == 0.0
    decreases hi - lo
  {
    if lo < hi { NoRowsNoTotal(rows, start, lo, hi - 1); }
  }

  /** A first value comes back whole from the days it is spread over. */
  lemma {:induction false} SpreadAddsUp(rows: seq<Snapshot>, start: int, k: nat, hi: int)
    requires k < |rows| && First(rows, k) && !Predates(rows[k], start) && start <= hi && start <= rows[k].day
    ensures var row := rows[k];
      var days := row.day - SpreadFrom(row) + 1;
      var counted := if hi <= SpreadFrom(row) then 0 else if hi > row.day then days else hi - SpreadFrom(row);
      RowTotal(rows, start, k, start, hi) == counted as real * (row.value / days as real)
    decreases hi - start
  {
    if start < hi { SpreadAddsUp(rows, start, k, hi - 1); }
  }

  lemma {:induction false} LaterRowAddsUp(rows: seq<Snapshot>, start: int, k: nat, hi: int)
    requires k < |rows| && start <= hi && start <= rows[k].day
    requires !First(rows, k) || Predates(rows[k], start)
    ensures RowTotal(rows, start, k, start, hi) == if hi > rows[k].day then Gain(rows, start, k) else 0.0
    decreases hi - start
  {
    if start < hi { LaterRowAddsUp(rows, start, k, hi - 1); }
  }

  lemma RowAddsItsGain(rows: seq<Snapshot>, start: int, end: int, k: nat)
    requires k < |rows| && InWindow(rows, start, end) && start <= end + 1
    ensures RowTotal(rows, start, k, start, end + 1) == Gain(rows, start, k)
  {
    if First(rows, k) && !Predates(rows[k], start) {
      SpreadAddsUp(rows, start, k, end + 1);
      Whole(rows[k].value, rows[k].day - SpreadFrom(rows[k]) + 1);
    } else {
      LaterRowAddsUp(rows, start, k, end + 1);
    }
  }

  lemma Whole(value: real, days: int)
    requires days > 0
    ensures days as real * (value / days as real) == value
  {
  }

  lemma {:induction false} SeriesSumsToGains(rows: seq<Snapshot>, start: int, end: int, n: nat)
    requires n <= |rows| && InWindow(rows, start, end) && start <= end + 1
    ensures DaysTotal(rows, start, n, start, end + 1) == Gains(rows, start, n)
  {
    if n == 0 {
      NoRowsNoTotal(rows, start, start, end + 1);
    } else {
      SeriesSumsToGains(rows, start, end, n - 1);
      DaysTotalByRow(rows, start, n - 1, start, end + 1);
      RowAddsItsGain(rows, start, end, n - 1);
    }
  }

  /* The same sum, post by post: peak in-window value less the anchor. */

  /** One post's in-window snapshots, in date order. */
  datatype History = History(post: nat, snapshots: seq<Snapshot>)

  predicate WellFormed(histories: seq<History>) {
    && (forall i | 0 <= i < |histories| ::
          && histories[i].snapshots != []
          && forall k | 0 <= k < |histories[i].snapshots| :: histories[i].snapshots[k].post == histories[i].post)
    && forall i | 0 < i < |histories| :: histories[i - 1].post != histories[i].post
  }

  /** The query's rows: ordered by post, then date. */
  function Rows(histories: seq<History>): seq<Snapshot> {
    if histories == [] then []
    else Rows(histories[..|histories| - 1]) + histories[|histories| - 1].snapshots
  }

  function Highest(snapshots: seq<Snapshot>): real
    requires snapshots != []
  {
    var last := snapshots[|snapshots| - 1].value;
    if |snapshots| == 1 then last else Max(Highest(snapshots[..|snapshots| - 1]), last)
  }

  lemma {:induction false} HighestIsTheMaximum(snapshots: seq<Snapshot>) returns (at: nat)
    requires snapshots != []
    ensures at < |snapshots| && snapshots[at].value == Highest(snapshots)
    ensures forall k | 0 <= k < |snapshots| :: snapshots[k].value <= snapshots[at].value
  {
    var n := |snapshots| - 1;
    at := n;
    if n > 0 {
      var best := HighestIsTheMaximum(snapshots[..n]);
      assert forall k | 0 <= k < n :: snapshots[..n][k] == snapshots[k];
      if snapshots[best].value > snapshots[n].value {
        at := best;
      }
    }
  }

  function Anchor(h: History, start: int): real
    requires h.snapshots != []
  {
    if Predates(h.snapshots[0], start) then h.snapshots[0].value else 0.0
  }

  function PeaksLessAnchors(histories: seq<History>, start: int): real
    requires WellFormed(histories)
  {
    if histories == [] then 0.0
    else
      var last := histories[|histories| - 1];
      PeaksLessAnchors(histories[..|histories| - 1], start) + Highest(last.snapshots) - Anchor(last, start)
  }

  lemma {:induction false} PrefixKeepsGains(a: seq<Snapshot>, b: seq<Snapshot>, start: int, n: nat)
    requires n <= |a|
    ensures Gains(a + b, start, n) == Gains(a, start, n)
    ensures n > 0 ==> Peak(a + b, n - 1) == Peak(a, n - 1)
  {
    if n > 0 { PrefixKeepsGains(a, b, start, n - 1); }
  }

  lemma HighestExtends(snapshots: seq<Snapshot>, n: nat)
    requires 0 < n < |snapshots|
    ensures Highest(snapshots[..n + 1]) == Max(Highest(snapshots[..n]), snapshots[n].value)
  {
    assert snapshots[..n + 1][..n] == snapshots[..n];
  }

  lemma NextGain(rows: seq<Snapshot>, start: int, k: nat, high: real, others: real)
    requires 0 < k < |rows| && rows[k - 1].post == rows[k].post
    requires Peak(rows, k - 1) == high && Gains(rows, start, k) == others + high
    ensures Peak(rows, k) == Max(high, rows[k].value)
    ensures Gains(rows, start, k + 1) == others + Max(high, rows[k].value)
  {
  }

  /** Rows m, m + 1, ... are one post's, and row m is its first. */
  predicate RunsFrom(rows: seq<Snapshot>, m: nat, h: History) {
    && m + |h.snapshots| <= |rows| && h.snapshots != []
    && (forall k | 0 <= k < |h.snapshots| :: rows[m + k] == h.snapshots[k] && rows[m + k].post == h.post)
    && (m > 0 ==> rows[m - 1].post != h.post)
  }

  /** Over one post, the gains telescope. */
  lemma {:induction false} PostGains(rows: seq<Snapshot>, m: nat, h: History, start: int, n: nat)
    requires RunsFrom(rows, m, h) && 0 < n <= |h.snapshots|
    ensures Peak(rows, m + n - 1) == Highest(h.snapshots[..n])
    ensures Gains(rows, start, m + n) == Gains(rows, start, m) - Anchor(h, start) + Highest(h.snapshots[..n])
  {
    if n == 1 {
      assert h.snapshots[..1] == [h.snapshots[0]];
      assert rows[m + 0] == h.snapshots[0];
    } else {
      PostGains(rows, m, h, start, n - 1);
      HighestExtends(h.snapshots, n - 1);
      assert rows[m + (n - 1)] == h.snapshots[n - 1] && rows[m + (n - 2)].post == rows[m + (n - 1)].post;
      NextGain(rows, start, m + n - 1, Highest(h.snapshots[..n - 1]), Gains(rows, start, m) - Anchor(h, start));
    }
  }

  lemma RunsAfter(rows: seq<Snapshot>, h: History)
    requires h.snapshots != [] && forall k | 0 <= k < |h.snapshots| :: h.snapshots[k].post == h.post
    requires rows != [] ==> rows[|rows| - 1].post != h.post
    ensures RunsFrom(rows + h.snapshots, |rows|, h)
  {
  }

  lemma LastPostGains(rows: seq<Snapshot>, m: nat, h: History, start: int)
    requires RunsFrom(rows, m, h) && |rows| == m + |h.snapshots|
    ensures Gains(rows, start, |rows|) == Gains(rows, start, m) - Anchor(h, start) + Highest(h.snapshots)
  {
    PostGains(rows, m, h, start, |h.snapshots|);
    assert h.snapshots[..|h.snapshots|] == h.snapshots;
  }

  /** One more post adds its peak less its anchor. */
  lemma OneMorePost(rows: seq<Snapshot>, h: History, start: int)
    requires h.snapshots != [] && forall k | 0 <= k < |h.snapshots| :: h.snapshots[k].post == h.post
    requires rows != [] ==> rows[|rows| - 1].post != h.post
    ensures var all := rows + h.snapshots;
      Gains(all, start, |all|) == Gains(rows, start, |rows|) + Highest(h.snapshots) - Anchor(h, start)
  {
    RunsAfter(rows, h);
    LastPostGains(rows + h.snapshots, |rows|, h, start);
    PrefixKeepsGains(rows, h.snapshots, start, |rows|);
  }

  lemma {:induction false} GainsArePeaksLessAnchors(histories: seq<History>, start: int)
    requires WellFormed(histories)
    ensures Gains(Rows(histories), start, |Rows(histories)|) == PeaksLessAnchors(histories, start)
    ensures histories != [] ==>
      Rows(histories) != [] && Rows(histories)[|Rows(histories)| - 1].post == histories[|histories| - 1].post
  {
    if histories != [] {
      var init, last := histories[..|histories| - 1], histories[|histories| - 1];
      GainsArePeaksLessAnchors(init, start);
      OneMorePost(Rows(init), last, start);
    }
  }

  /** Main result 1. The daily totals sum exactly to what every post gained in the window: its
      highest in-window value less the anchor, which is the first value for a post published
      before the window and zero otherwise. Resets cost nothing and recoveries earn nothing. */
  lemma NothingIsLostOrInvented(histories: seq<History>, start: int, end: int)
    requires WellFormed(histories) && InWindow(Rows(histories), start, end) && start <= end + 1
    ensures var rows := Rows(histories);
      DaysTotal(rows, start, |rows|, start, end + 1) == PeaksLessAnchors(histories, start)
  {
    SeriesSumsToGains(Rows(histories), start, end, |Rows(histories)|);
    GainsArePeaksLessAnchors(histories, start);
  }

  /** Main result 2. Every credit is non-negative exactly when no credited first value is negative. */
  lemma CreditsAreNonNegativeIff(rows: seq<Snapshot>, start: int)
    ensures (forall k, d | 0 <= k < |rows| :: Credit(rows, start, k, d) >= 0.0) <==>
      forall k | 0 <= k < |rows| && First(rows, k) && !Predates(rows[k], start) :: rows[k].value >= 0.0
  {
    if forall k | 0 <= k < |rows| && First(rows, k) && !Predates(rows[k], start) :: rows[k].value >= 0.0 {
      forall k, d | 0 <= k < |rows|
        ensures Credit(rows, start, k, d) >= 0.0
      {
        if First(rows, k) && !Predates(rows[k], start) {
          ShareHasSign(rows[k].value, rows[k].day - SpreadFrom(rows[k]) + 1);
        }
      }
    }
    forall k | 0 <= k < |rows| && First(rows, k) && !Predates(rows[k], start) && rows[k].value < 0.0
      ensures Credit(rows, start, k, rows[k].day) < 0.0
    {
      ShareHasSign(rows[k].value, rows[k].day - SpreadFrom(rows[k]) + 1);
    }
  }

  lemma ShareHasSign(value: real, days: int)
    requires days > 0
    ensures value / days as real >= 0.0 <==> value >= 0.0
  {
    Whole(value, days);
  }

  /** Credit stays inside the window, and a snapshot at or below the running peak
      credits nothing anywhere. */
  lemma CreditIsPlacedRight(rows: seq<Snapshot>, start: int, end: int, k: nat, d: int)
    requires InWindow(rows, start, end) && k < |rows|
    ensures Credit(rows, start, k, d) != 0.0 ==> start <= d <= end && d in Touched(rows, start, k)
    ensures !First(rows, k) && rows[k].value <= Peak(rows, k - 1) ==>
      Credit(rows, start, k, d) == 0.0 && Peak(rows, k) == Peak(rows, k - 1)
  {
  }

  /* Snapshots at or below the running peak might as well not be there. */

  function Without(rows: seq<Snapshot>, k: nat): (rest: seq<Snapshot>)
    requires k < |rows|
  {
    rows[..k] + rows[k + 1..]
  }

  predicate BelowPeak(rows: seq<Snapshot>, k: nat)
    requires k < |rows|
  {
    !First(rows, k) && rows[k].value <= Peak(rows, k - 1)
  }

  /** Row j of what is left. */
  function Moved(k: nat, j: nat): nat { if j < k then j else j + 1 }

  lemma {:induction false} PeakWithout(rows: seq<Snapshot>, k: nat, j: nat)
    requires k < |rows| && BelowPeak(rows, k) && j < |rows| - 1
    ensures First(Without(rows, k), j) == First(rows, Moved(k, j))
    ensures Peak(Without(rows, k), j) == Peak(rows, Moved(k, j))
  {
    var rest := Without(rows, k);
    assert rest[j] == rows[Moved(k, j)];
    if j > 0 {
      assert rest[j - 1] == rows[Moved(k, j - 1)];
      PeakWithout(rows, k, j - 1);
    }
  }

  lemma CreditWithout(rows: seq<Snapshot>, start: int, k: nat, j: nat, d: int)
    requires k < |rows| && BelowPeak(rows, k) && j < |rows| - 1
    ensures Credit(Without(rows, k), start, j, d) == Credit(rows, start, Moved(k, j), d)
    ensures Touched(Without(rows, k), start, j) == Touched(rows, start, Moved(k, j))
  {
    var rest := Without(rows, k);
    assert rest[j] == rows[Moved(k, j)];
    PeakWithout(rows, k, j);
    if j > 0 {
      PeakWithout(rows, k, j - 1);
    }
  }

  lemma {:induction false} TotalsBefore(rows: seq<Snapshot>, start: int, k: nat, n: nat, d: int)
    requires k < |rows| && BelowPeak(rows, k) && n <= k
    ensures DayTotal(Without(rows, k), start, n, d) == DayTotal(rows, start, n, d)
    ensures AllTouched(Without(rows, k), start, n) == AllTouched(rows, start, n)
  {
    if n > 0 {
      TotalsBefore(rows, start, k, n - 1, d);
      CreditWithout(rows, start, k, n - 1, d);
    }
  }

  lemma LowSnapshotAddsNothing(rows: seq<Snapshot>, start: int, k: nat, d: int)
    requires k < |rows| && BelowPeak(rows, k)
    ensures DayTotal(rows, start, k + 1, d) == DayTotal(rows, start, k, d)
    ensures AllTouched(rows, start, k + 1) == AllTouched(rows, start, k)
  {
    assert Credit(rows, start, k, d) == 0.0 && Touched(rows, start, k) == {};
  }

  lemma {:induction false} TotalsFrom(rows: seq<Snapshot>, start: int, k: nat, n: nat, d: int)
    requires k < |rows| && BelowPeak(rows, k) && k <= n < |rows|
    ensures DayTotal(Without(rows, k), start, n, d) == DayTotal(rows, start, n + 1, d)
    ensures AllTouched(Without(rows, k), start, n) == AllTouched(rows, start, n + 1)
  {
    if n == k {
      TotalsBefore(rows, start, k, n, d);
      LowSnapshotAddsNothing(rows, start, k, d);
    } else {
      TotalsFrom(rows, start, k, n - 1, d);
      CreditWithout(rows, start, k, n - 1, d);
    }
  }

  /** Main result 3. A snapshot at or below its post's running peak changes nothing: leaving it
      out gives the same credited days with the same totals. */
  lemma LowSnapshotsChangeNothing(rows: seq<Snapshot>, start: int, k: nat, d: int)
    requires k < |rows| && BelowPeak(rows, k)
    ensures DayTotal(Without(rows, k), start, |rows| - 1, d) == DayTotal(rows, start, |rows|, d)
    ensures AllTouched(Without(rows, k), start, |rows| - 1) == AllTouched(rows, start, |rows|)
  {
    TotalsFrom(rows, start, k, |rows| - 1, d);
  }

  /* Where each value lands, spelled out. */

  /** What row k adds to day d of the series. */
  function Added(rows: seq<Snapshot>, start: int, k: nat, d: int): real
    requires k < |rows|
  {
    DayTotal(rows, start, k + 1, d) - DayTotal(rows, start, k, d)
  }

  /** Main result 4. A post's first value is spread evenly over the days since it was published; it
      falls on its own day when the date is missing or later; and it is not credited at all when
      the post is older than the window. */
  lemma FirstValueIsSpread(rows: seq<Snapshot>, start: int, k: nat, d: int)
    requires k < |rows| && (k == 0 || rows[k - 1].post != rows[k].post)
    ensures var row := rows[k];
      match row.publishedOn
      case None => Added(rows, start, k, d) == if d == row.day then row.value else 0.0
      case Some(published) =>
        && (published > row.day ==> Added(rows, start, k, d) == if d == row.day then row.value else 0.0)
        && (published <= row.day && published < start ==> Added(rows, start, k, d) == 0.0)
        && (start <= published <= row.day ==>
            Added(rows, start, k, d)
            == if published <= d <= row.day then row.value / (row.day - published + 1) as real else 0.0)
  {
  }

  /** The greatest value the post had before row k. */
  lemma {:induction false} PeakIsGreatest(rows: seq<Snapshot>, k: nat) returns (at: nat)
    requires k < |rows|
    ensures at <= k && rows[at].value == Peak(rows, k)
    ensures forall j | at <= j <= k :: rows[j].post == rows[k].post && rows[j].value <= rows[at].value
    ensures forall j | 0 <= j <= k && SamePost(rows, j, k) :: rows[j].value <= rows[at].value
  {
    at := k;
    if !First(rows, k) {
      var best := PeakIsGreatest(rows, k - 1);
      if rows[best].value > rows[k].value {
        at := best;
      }
      forall j | 0 <= j <= k && SamePost(rows, j, k)
        ensures rows[j].value <= rows[at].value
      {
        assert j < k ==> SamePost(rows, j, k - 1);
      }
    }
  }

  /** The rows from j to k are all of one post. */
  predicate SamePost(rows: seq<Snapshot>, j: nat, k: nat)
    requires j <= k < |rows|
  {
    j == k || (rows[k - 1].post == rows[k].post && SamePost(rows, j, k - 1))
  }

  /** A later value adds, on its own day, what it rises above everything its post had before. */
  lemma LaterValueAddsItsRise(rows: seq<Snapshot>, start: int, k: nat, d: int) returns (best: nat)
    requires 0 < k < |rows| && rows[k - 1].post == rows[k].post
    ensures best < k && forall j | 0 <= j < k && SamePost(rows, j, k) :: rows[j].value <= rows[best].value
    ensures rows[best].post == rows[k].post
    ensures Added(rows, start, k, d)
      == if d == rows[k].day && rows[k].value > rows[best].value then rows[k].value - rows[best].value else 0.0
  {
    best := PeakIsGreatest(rows, k - 1);
    forall j | 0 <= j < k && SamePost(rows, j, k)
      ensures rows[j].value <= rows[best].value
    {
      assert SamePost(rows, j, k - 1);
    }
  }

  /** A day is observed if and only if a later snapshot is dated on it, or a first value was
      credited to it. */
  lemma {:induction false} ObservedIff(rows: seq<Snapshot>, start: int, n: nat, d: int)
    requires n <= |rows|
    ensures d in Measured(rows, n) + AllTouched(rows, start, n) <==>
      exists k | 0 <= k < n :: Observes(rows, start, k, d)
  {
    if n > 0 {
      ObservedIff(rows, start, n - 1, d);
      assert d in Measured(rows, n) + AllTouched(rows, start, n)
        <==> d in Measured(rows, n - 1) + AllTouched(rows, start, n - 1) || Observes(rows, start, n - 1, d);
    }
  }

  predicate Observes(rows: seq<Snapshot>, start: int, k: nat, d: int)
    requires k < |rows|
  {
    var row := rows[k];
    if k > 0 && rows[k - 1].post == row.post then d == row.day
    else
      match row.publishedOn
      case None => d == row.day
      case Some(published) => if published > row.day then d == row.day else start <= published <= d <= row.day
  }

  /** A day is credited if and only if a later value rose on it above all its post had before, or a
      first value was credited to it. */
  lemma {:induction false} CreditedIff(rows: seq<Snapshot>, start: int, n: nat, d: int)
    requires n <= |rows|
    ensures d in AllTouched(rows, start, n) <==> exists k | 0 <= k < n :: Credits(rows, start, k, d)
  {
    if n > 0 {
      CreditedIff(rows, start, n - 1, d);
      assert d in AllTouched(rows, start, n)
        <==> d in AllTouched(rows, start, n - 1) || Credits(rows, start, n - 1, d);
    }
  }

  predicate Credits(rows: seq<Snapshot>, start: int, k: nat, d: int)
    requires k < |rows|
  {
    && Observes(rows, start, k, d)
    && (k > 0 && rows[k - 1].post == rows[k].post ==> rows[k].value > Peak(rows, k - 1))
  }

  lemma {:induction false} SomethingObservedIff(rows: seq<Snapshot>, start: int, n: nat)
    requires n <= |rows|
    ensures Measured(rows, n) + AllTouched(rows, start, n) != {} <==>
      exists k, d | 0 <= k < n :: Observes(rows, start, k, d)
  {
    forall k, d | 0 <= k < n && Observes(rows, start, k, d)
      ensures Measured(rows, n) + AllTouched(rows, start, n) != {}
    {
      ObservedIff(rows, start, n, d);
      assert d in Measured(rows, n) + AllTouched(rows, start, n);
    }
    if n > 0 && Measured(rows, n) + AllTouched(rows, start, n) != {} {
      SomethingObservedIff(rows, start, n - 1);
      if First(rows, n - 1) && Predates(rows[n - 1], start) {
        assert Measured(rows, n - 1) + AllTouched(rows, start, n - 1) != {};
      } else {
        assert Observes(rows, start, n - 1, rows[n - 1].day);
      }
    }
  }
}
