/**
 * The numbers on an analytics card (apps/analytics/derive.py): one metric
 * reduced to a value and a chart, and the engagement rate divided out of
 * several. Floating-point values are real numbers here and are not rounded.
 */
module DerivedMetrics {
  import opened Wrappers

  datatype Kind = Count | Percent | Minutes

  /** A chart has a gap (`None`) on a day with no reported value. */
  datatype DerivedMetric = DerivedMetric(
    value: real, delta: real, series: seq<Option<real>>, denominator: Option<string>)

  type Mask = seq<bool>

  /** The length of a period; a card never covers fewer than one day. */
  type Days = d: nat | 0 < d witness 1

  const ENGAGEMENT_PARTS: seq<string> :=
    ["likes", "reactions", "comments", "replies", "shares", "reposts", "saves", "clicks", "outbound"]

  const ENGAGEMENT_DENOMINATORS: seq<string> := ["views", "reach", "impressions", "plays"]

  // ---------------------------------------------------------------------
  // Windows
  // ---------------------------------------------------------------------

  function Sum(s: seq<real>): (total: real) {
    if s == [] then 0.0 else s[0] + Sum(s[1..])
  }

  /** The last `n` elements, or all of them. */
  function Tail<T>(s: seq<T>, n: nat): (t: seq<T>)
    ensures |t| == if |s| <= n then |s| else n
  {
    if |s| <= n then s else s[|s| - n..]
  }

  /** The `n` elements before the last `n`, or as many as there are. */
  function Earlier<T>(s: seq<T>, n: nat): (t: seq<T>) {
    if |s| <= n then [] else Tail(s[..|s| - n], n)
  }

  function Change(current: real, previous: real): (delta: real) {
    if previous != 0.0 then (current - previous) / previous * 100.0 else 0.0
  }

  /** The last day that has a value, or -1. */
  function LastPresent(present: Mask): (last: int)
    ensures -1 <= last < |present|
  {
    if present == [] then -1
    else if present[|present| - 1] then |present| - 1
    else LastPresent(present[..|present| - 1])
  }

  /** A rate has no value on a day without data; of a daily quantity only the
      days after the last report have not arrived. */
  function ReportedDays(present: Mask, kind: Kind): (reported: Mask)
    ensures |reported| == |present|
  {
    if kind == Percent then present
    else seq(|present|, i => i <= LastPresent(present))
  }

  /** The values whose day is reported; the shorter list ends the pairing. */
  function Kept(values: seq<real>, reported: Mask): (kept: seq<real>) {
    if values == [] || reported == [] then []
    else (if reported[0] then [values[0]] else []) + Kept(values[1..], reported[1..])
  }

  function Dropped(values: seq<real>, reported: Mask): (dropped: seq<real>) {
    if values == [] then []
    else if reported == [] then values
    else (if reported[0] then [] else [values[0]]) + Dropped(values[1..], reported[1..])
  }

  function Gapped(values: seq<real>, reported: Mask): (series: seq<Option<real>>)
    ensures |series| == if |values| < |reported| then |values| else |reported|
  {
    if values == [] || reported == [] then []
    else [if reported[0] then Some(values[0]) else None] + Gapped(values[1..], reported[1..])
  }

  function WithGaps(values: seq<real>, reported: Option<Mask>): (series: seq<Option<real>>) {
    match reported
    case None => seq(|values|, i requires 0 <= i < |values| => Some(values[i]))
    case Some(mask) => Gapped(values, mask)
  }

  function Mean(s: seq<real>): (mean: real) {
    if s == [] then 0.0 else Sum(s) / |s| as real
  }

  function WindowValue(values: seq<real>, present: Option<Mask>, kind: Kind): (value: real) {
    if kind == Count then Sum(values)
    else
      match present
      case None => Mean(values)
      case Some(mask) => Mean(Kept(values, ReportedDays(mask, kind)))
  }

  /** One metric's card: the window's total or average, and its chart. */
  function Derive(values: seq<real>, days: Days, kind: Kind, present: Option<Mask>): (card: DerivedMetric)
  {
    var current := if present.Some? then Some(Tail(present.value, days)) else None;
    var previous := if present.Some? then Some(Earlier(present.value, days)) else None;
    var value := WindowValue(Tail(values, days), current, kind);
    DerivedMetric(
      value,
      Change(value, WindowValue(Earlier(values, days), previous, kind)),
      WithGaps(Tail(values, days), if current.Some? then Some(ReportedDays(current.value, kind)) else None),
      None)
  }

  // ---------------------------------------------------------------------
  // Engagement rate
  // ---------------------------------------------------------------------

  /** The metrics of a series map that count as engagement. */
  function PartKeys(keys: seq<string>, series: map<string, seq<real>>): (parts: seq<string>)
    ensures forall k :: k in parts ==> k in series && k in keys
  {
    if keys == [] then []
    else (if keys[0] in series then [keys[0]] else []) + PartKeys(keys[1..], series)
  }

  /** The first denominator with data in the current window. */
  function FirstDenominator(keys: seq<string>, series: map<string, seq<real>>, days: Days): (key: Option<string>)
    ensures key.Some? ==> key.value in series && Sum(Tail(series[key.value], days)) > 0.0
  {
    if keys == [] then None
    else if keys[0] in series && Sum(Tail(series[keys[0]], days)) > 0.0 then Some(keys[0])
    else FirstDenominator(keys[1..], series, days)
  }

  function Longest(parts: seq<string>, series: map<string, seq<real>>, span: nat): (n: nat)
    requires forall k :: k in parts ==> k in series
  {
    if parts == [] then 0
    else
      var n, rest := |Tail(series[parts[0]], span)|, Longest(parts[1..], series, span);
      if n < rest then rest else n
  }

  /** What a series adds to a day, counted from its first; one that has ended adds nothing. */
  function OnDay(s: seq<real>, day: nat): (value: real) {
    if day < |s| then s[day] else 0.0
  }

  /** All parts of one day. */
  function DayTotal(parts: seq<string>, series: map<string, seq<real>>, span: nat, day: nat): (total: real)
    requires forall k :: k in parts ==> k in series
  {
    if parts == [] then 0.0
    else
      OnDay(Tail(series[parts[0]], span), day) + DayTotal(parts[1..], series, span, day)
  }

  function TotalsPerDay(parts: seq<string>, series: map<string, seq<real>>, span: nat): (totals: seq<real>)
    requires forall k :: k in parts ==> k in series
  {
    seq(Longest(parts, series, span), day requires 0 <= day => DayTotal(parts, series, span, day))
  }

  function PartsPerDay(series: map<string, seq<real>>, span: nat): (totals: seq<real>) {
    TotalsPerDay(PartKeys(ENGAGEMENT_PARTS, series), series, span)
  }

  function Zeros(n: nat): (z: seq<real>)
    ensures |z| == n && forall i :: 0 <= i < n ==> z[i] == 0.0
  {
    seq(n, i => 0.0)
  }

  /** The denominators of the parts window, aligned with its last day. */
  function AlignedRight(denominators: seq<real>, n: nat): (aligned: seq<real>)
    ensures |aligned| == n
  {
    var padded := if |denominators| < n then Zeros(n - |denominators|) + denominators else denominators;
    padded[|padded| - n..]
  }

  function Rate(part: real, denominator: real): (rate: real) {
    if denominator > 0.0 then part / denominator * 100.0 else 0.0
  }

  /** The daily points of the chart. */
  function Rates(parts: seq<real>, denominators: seq<real>): (rates: seq<real>)
    requires |parts| == |denominators|
    ensures |rates| == |parts|
    ensures forall i :: 0 <= i < |parts| ==> rates[i] == Rate(parts[i], denominators[i])
  {
    if parts == [] then []
    else [Rate(parts[0], denominators[0])] + Rates(parts[1..], denominators[1..])
  }

  /** What the headline divides: both windows of the parts, the denominators
      day by day, and their totals. */
  datatype Fraction = Fraction(
    parts: seq<real>, partsBefore: seq<real>, denominators: seq<real>,
    total: real, totalBefore: real, name: Option<string>)

  function FractionOf(series: map<string, seq<real>>, days: Days, followers: int): (f: Fraction)
    ensures |f.denominators| == |f.parts|
  {
    var perDay := PartsPerDay(series, 2 * days);
    var parts := Tail(perDay, days);
    match FirstDenominator(ENGAGEMENT_DENOMINATORS, series, days)
    case Some(key) =>
      var span := Tail(series[key], 2 * days);
      Fraction(parts, Earlier(perDay, days), AlignedRight(Tail(span, days), |parts|),
               Sum(Tail(span, days)), Sum(Earlier(span, days)), Some(key))
    case None =>
      Fraction(parts, Earlier(perDay, days), seq(|parts|, i => followers as real),
               followers as real, followers as real, if followers > 0 then Some("followers") else None)
  }

  /** The days on which any of the masks has a value, as far as the shortest
      mask goes. */
  function AnyPresent(masks: seq<Mask>): (present: Mask)
    requires masks != []
  {
    if |masks| == 1 then masks[0]
    else
      var rest := AnyPresent(masks[1..]);
      var n := if |masks[0]| < |rest| then |masks[0]| else |rest|;
      seq(n, i requires 0 <= i < n => masks[0][i] || rest[i])
  }

  function MasksOf(basis: seq<string>, present: map<string, Mask>, days: Days): (masks: seq<Mask>) {
    if basis == [] then []
    else (if basis[0] in present then [Tail(present[basis[0]], days)] else []) + MasksOf(basis[1..], present, days)
  }

  /** A mask of `n` days, aligned with the last one. */
  function MaskAlignedRight(present: Mask, n: nat): (mask: Mask)
    ensures |mask| == n
  {
    var padded := if |present| < n then seq(n - |present|, i => false) + present else present;
    padded[|padded| - n..]
  }

  function Chart(rates: seq<real>, masks: seq<Mask>): (series: seq<Option<real>>)
  {
    if rates == [] || masks == [] then WithGaps(rates, None)
    else WithGaps(rates, Some(ReportedDays(MaskAlignedRight(AnyPresent(masks), |rates|), Count)))
  }

  /** The presence masks the rate depends on: the denominator's, or every part's. */
  function RateMasks(series: map<string, seq<real>>, days: Days, present: Option<map<string, Mask>>): (masks: seq<Mask>)
  {
    var key := FirstDenominator(ENGAGEMENT_DENOMINATORS, series, days);
    var basis := if key.Some? then [key.value] else PartKeys(ENGAGEMENT_PARTS, series);
    if present.Some? then MasksOf(basis, present.value, days) else []
  }

  function EngagementRate(
    series: map<string, seq<real>>, days: Days, followers: int, present: Option<map<string, Mask>>
  ): (card: DerivedMetric)
  {
    var f := FractionOf(series, days, followers);
    var value := Rate(Sum(f.parts), f.total);
    DerivedMetric(value, Change(value, Rate(Sum(f.partsBefore), f.totalBefore)),
                  Chart(Rates(f.parts, f.denominators), RateMasks(series, days, present)), f.name)
  }

  // ---------------------------------------------------------------------
  // The chart and the value of one metric
  // ---------------------------------------------------------------------

  /** The values a chart shows. */
  function Points(series: seq<Option<real>>): (points: seq<real>) {
    if series == [] then []
    else (if series[0].Some? then [series[0].value] else []) + Points(series[1..])
  }

  lemma {:induction false} PointsOfGapped(values: seq<real>, reported: Mask)
    ensures Points(Gapped(values, reported)) == Kept(values, reported)
  {
    if values != [] && reported != [] {
      PointsOfGapped(values[1..], reported[1..]);
      assert Gapped(values, reported)[1..] == Gapped(values[1..], reported[1..]);
    }
  }

  lemma {:induction false} PointsOfAll(values: seq<real>)
    ensures Points(WithGaps(values, None)) == values
  {
    if values != [] {
      PointsOfAll(values[1..]);
      assert WithGaps(values, None)[1..] == WithGaps(values[1..], None);
    }
  }

  lemma {:induction false} SumOfKeptAndDropped(values: seq<real>, reported: Mask)
    ensures Sum(Kept(values, reported)) + Sum(Dropped(values, reported)) == Sum(values)
  {
    if values != [] && reported != [] {
      SumOfKeptAndDropped(values[1..], reported[1..]);
      SumConcat(if reported[0] then [values[0]] else [], Kept(values[1..], reported[1..]));
      SumConcat(if reported[0] then [] else [values[0]], Dropped(values[1..], reported[1..]));
    }
  }

  lemma {:induction false} SumConcat(a: seq<real>, b: seq<real>)
    ensures Sum(a + b) == Sum(a) + Sum(b)
  {
    if a == [] {
      assert a + b == b;
    } else {
      assert (a + b)[1..] == a[1..] + b;
      SumConcat(a[1..], b);
    }
  }

  lemma {:induction false} LastPresentIsLast(present: Mask, i: nat)
    requires i < |present|
    ensures i <= LastPresent(present) <==> exists j :: i <= j < |present| && present[j]
  {
    var n := |present|;
    if !present[n - 1] && i < n - 1 {
      LastPresentIsLast(present[..n - 1], i);
    }
  }

  /** Of a daily quantity, a day is unreported exactly when neither it nor any
      later day has a value. */
  lemma UnreportedIsTheTrailingRun(present: Mask, kind: Kind, i: nat)
    requires i < |present| && kind != Percent
    ensures ReportedDays(present, kind)[i] <==> exists j :: i <= j < |present| && present[j]
  {
    LastPresentIsLast(present, i);
  }

  lemma MeanTimesCount(s: seq<real>)
    ensures if s == [] then Mean(s) == 0.0 else Mean(s) * |s| as real == Sum(s)
  {
  }

  /** An average on a card is the average of the points its chart shows. */
  lemma AverageIsTheMeanOfTheChart(values: seq<real>, days: Days, kind: Kind, present: Option<Mask>)
    requires kind != Count
    ensures var card := Derive(values, days, kind, present);
            card.value == Mean(Points(card.series))
  {
    PointsOfAll(Tail(values, days));
    if present.Some? {
      PointsOfGapped(Tail(values, days), ReportedDays(Tail(present.value, days), kind));
    }
  }

  lemma {:induction false} DroppedIsZero(values: seq<real>, reported: Mask)
    requires |values| == |reported| && forall i :: 0 <= i < |values| && !reported[i] ==> values[i] == 0.0
    ensures Sum(Dropped(values, reported)) == 0.0
  {
    if values != [] {
      DroppedIsZero(values[1..], reported[1..]);
      SumConcat(if reported[0] then [] else [values[0]], Dropped(values[1..], reported[1..]));
    }
  }

  /** A count on a card is the sum of the points its chart shows, when every day without a value
      counts as zero: the days the chart leaves out have nothing to add. */
  lemma CountIsTheSumOfTheChart(values: seq<real>, days: Days, present: Mask)
    requires |values| == |present| && forall i :: 0 <= i < |values| && !present[i] ==> values[i] == 0.0
    ensures var card := Derive(values, days, Count, Some(present)); card.value == Sum(Points(card.series))
  {
    var current, mask := Tail(values, days), Tail(present, days);
    var reported := ReportedDays(mask, Count);
    forall i | 0 <= i < |current| && !reported[i] ensures current[i] == 0.0 {
      UnreportedIsTheTrailingRun(mask, Count, i);
    }
    DroppedIsZero(current, reported);
    PointsOfGapped(current, reported);
    SumOfKeptAndDropped(current, reported);
  }

  // ---------------------------------------------------------------------
  // The headline as a weighted mean
  // ---------------------------------------------------------------------

  function Products(rates: seq<real>, denominators: seq<real>): (products: seq<real>)
    requires |rates| == |denominators|
  {
    seq(|rates|, i requires 0 <= i < |rates| => rates[i] * denominators[i])
  }

  lemma ProductsOfRest(rates: seq<real>, denominators: seq<real>)
    requires |rates| == |denominators| > 0
    ensures Products(rates, denominators)[1..] == Products(rates[1..], denominators[1..])
  {
    forall i | 0 <= i < |rates| - 1
      ensures Products(rates, denominators)[1..][i] == Products(rates[1..], denominators[1..])[i]
    {
      assert rates[1..][i] == rates[i + 1] && denominators[1..][i] == denominators[i + 1];
    }
  }

  /** Each day's rate weighted by that day's denominator. */
  function Weighted(rates: seq<real>, denominators: seq<real>): (w: real)
    requires |rates| == |denominators|
  {
    Sum(Products(rates, denominators))
  }

  /** The engagement of the days with nothing to divide it by. */
  function Stray(parts: seq<real>, denominators: seq<real>): (stray: real)
    requires |parts| == |denominators|
  {
    if parts == [] then 0.0
    else (if denominators[0] > 0.0 then 0.0 else parts[0]) + Stray(parts[1..], denominators[1..])
  }

  ghost predicate NonNegative(s: seq<real>) {
    forall i :: 0 <= i < |s| ==> s[i] >= 0.0
  }

  lemma RateTimesDenominator(part: real, denominator: real)
    requires denominator > 0.0
    ensures Rate(part, denominator) * denominator == 100.0 * part
  {
    assert part / denominator * denominator == part;
  }

  lemma {:induction false} PartsAreWeightedRatesAndStray(parts: seq<real>, denominators: seq<real>)
    requires |parts| == |denominators| && NonNegative(denominators)
    ensures 100.0 * Sum(parts)
            == Weighted(Rates(parts, denominators), denominators) + 100.0 * Stray(parts, denominators)
  {
    if parts != [] {
      PartsAreWeightedRatesAndStray(parts[1..], denominators[1..]);
      ProductsOfRest(Rates(parts, denominators), denominators);
      if denominators[0] > 0.0 {
        RateTimesDenominator(parts[0], denominators[0]);
      }
    }
  }

  /** The denominators weighted with one constant rate. */
  function Scaled(rate: real, denominators: seq<real>): (products: seq<real>) {
    Products(seq(|denominators|, i => rate), denominators)
  }

  lemma {:induction false} ScaledIsProduct(rate: real, denominators: seq<real>)
    ensures Sum(Scaled(rate, denominators)) == rate * Sum(denominators)
  {
    if denominators != [] {
      ScaledIsProduct(rate, denominators[1..]);
      ProductsOfRest(seq(|denominators|, i => rate), denominators);
      assert seq(|denominators|, i => rate)[1..] == seq(|denominators| - 1, i => rate);
      Distribute(rate, denominators[0], Sum(denominators[1..]));
    }
  }

  lemma Distribute(rate: real, d: real, total: real)
    ensures rate * (d + total) == rate * d + rate * total
  {
  }

  lemma {:induction false} SumIsMonotone(a: seq<real>, b: seq<real>)
    requires |a| == |b| && forall i :: 0 <= i < |a| ==> a[i] <= b[i]
    ensures Sum(a) <= Sum(b)
  {
    if a != [] {
      SumIsMonotone(a[1..], b[1..]);
    }
  }

  lemma WeightedWithin(rates: seq<real>, denominators: seq<real>, low: real, high: real)
    requires |rates| == |denominators| && NonNegative(denominators)
    requires forall i :: 0 <= i < |rates| && denominators[i] > 0.0 ==> low <= rates[i] <= high
    ensures Sum(Scaled(low, denominators)) <= Weighted(rates, denominators) <= Sum(Scaled(high, denominators))
  {
    var lows, products, highs := Scaled(low, denominators), Products(rates, denominators), Scaled(high, denominators);
    forall i | 0 <= i < |rates| ensures lows[i] <= products[i] <= highs[i] {
      ProductWithin(rates, denominators, low, high, i);
    }
    SumIsMonotone(lows, products);
    SumIsMonotone(products, highs);
  }

  lemma ProductWithin(rates: seq<real>, denominators: seq<real>, low: real, high: real, i: nat)
    requires i < |rates| == |denominators| && denominators[i] >= 0.0
    requires denominators[i] > 0.0 ==> low <= rates[i] <= high
    ensures Scaled(low, denominators)[i] <= Products(rates, denominators)[i] <= Scaled(high, denominators)[i]
  {
    ScaledUp(low, rates[i], denominators[i]);
    ScaledUp(rates[i], high, denominators[i]);
  }

  lemma ScaledUp(low: real, high: real, d: real)
    requires d >= 0.0 && (d > 0.0 ==> low <= high)
    ensures low * d <= high * d
  {
    if d > 0.0 {
      assert (high - low) * d >= 0.0;
    }
  }

  lemma {:induction false} NoStray(parts: seq<real>, denominators: seq<real>)
    requires |parts| == |denominators| && NonNegative(parts) && NonNegative(denominators)
    ensures Stray(parts, denominators) >= 0.0
    ensures Stray(parts, denominators) == 0.0
            <==> forall i :: 0 <= i < |parts| && denominators[i] == 0.0 ==> parts[i] == 0.0
  {
    if parts != [] {
      var p, d := parts[1..], denominators[1..];
      NoStray(p, d);
      if forall i :: 0 <= i < |p| && d[i] == 0.0 ==> p[i] == 0.0 {
        forall i | 0 < i < |parts| && denominators[i] == 0.0 ensures parts[i] == 0.0 {
          assert d[i - 1] == 0.0;
        }
      } else {
        var i :| 0 <= i < |p| && d[i] == 0.0 && p[i] != 0.0;
        assert denominators[i + 1] == 0.0 && parts[i + 1] != 0.0;
      }
    }
  }

  // ---------------------------------------------------------------------
  // Series of equal length
  // ---------------------------------------------------------------------

  /** Every engagement series has the length of the denominator's, and there
      is at least one. */
  ghost predicate EqualLengths(series: map<string, seq<real>>, key: string) {
    && key in series
    && PartKeys(ENGAGEMENT_PARTS, series) != []
    && forall k :: k in PartKeys(ENGAGEMENT_PARTS, series) ==> |series[k]| == |series[key]|
  }

  lemma {:induction false} LongestOfEqual(parts: seq<string>, series: map<string, seq<real>>, span: nat, n: nat)
    requires parts != [] && forall k :: k in parts ==> k in series && |Tail(series[k], span)| == n
    ensures Longest(parts, series, span) == n
  {
    if |parts| > 1 {
      LongestOfEqual(parts[1..], series, span, n);
    }
  }

  lemma TailOfTail<T>(s: seq<T>, days: Days)
    ensures Tail(Tail(s, 2 * days), days) == Tail(s, days)
  {
  }

  /** The denominators the chart divides by are then the very days the headline
      adds up. */
  lemma WindowsAgree(series: map<string, seq<real>>, days: Days, followers: int, key: string)
    requires FirstDenominator(ENGAGEMENT_DENOMINATORS, series, days) == Some(key)
    requires EqualLengths(series, key)
    ensures var f := FractionOf(series, days, followers);
            f.denominators == Tail(series[key], days) && f.total == Sum(f.denominators) > 0.0
  {
    var span := Tail(series[key], 2 * days);
    LongestOfEqual(PartKeys(ENGAGEMENT_PARTS, series), series, 2 * days, |span|);
    TailOfTail(series[key], days);
    var window := Tail(span, days);
    assert |PartsPerDay(series, 2 * days)| == |span|;
    assert AlignedRight(window, |window|) == window;
  }

  /**
   * The headline is the mean of the daily rates, each weighted by its day's
   * denominator, plus the rate of the engagement that fell on days without a
   * denominator; so it is that mean exactly when there is none.
   */
  lemma HeadlineIsTheWeightedMeanIff(
    series: map<string, seq<real>>, days: Days, followers: int, present: Option<map<string, Mask>>, key: string)
    requires FirstDenominator(ENGAGEMENT_DENOMINATORS, series, days) == Some(key)
    requires EqualLengths(series, key) && NonNegative(Tail(series[key], days))
    ensures var f := FractionOf(series, days, followers);
            && Sum(f.denominators) > 0.0
            && var value := EngagementRate(series, days, followers, present).value;
               var mean := WeightedMean(Rates(f.parts, f.denominators), f.denominators);
               && value == mean + Rate(Stray(f.parts, f.denominators), f.total)
               && (value == mean <==> Stray(f.parts, f.denominators) == 0.0)
  {
    WindowsAgree(series, days, followers, key);
    var f := FractionOf(series, days, followers);
    MeanOfFraction(f.parts, f.denominators);
  }

  /** What the points average to, each weighted by its denominator. */
  function WeightedMean(rates: seq<real>, denominators: seq<real>): (mean: real)
    requires |rates| == |denominators| && Sum(denominators) > 0.0
  {
    Weighted(rates, denominators) / Sum(denominators)
  }

  lemma MeanOfFraction(parts: seq<real>, denominators: seq<real>)
    requires |parts| == |denominators| && NonNegative(denominators) && Sum(denominators) > 0.0
    ensures Rate(Sum(parts), Sum(denominators))
            == WeightedMean(Rates(parts, denominators), denominators)
               + Rate(Stray(parts, denominators), Sum(denominators))
    ensures Rate(Sum(parts), Sum(denominators)) == WeightedMean(Rates(parts, denominators), denominators)
            <==> Stray(parts, denominators) == 0.0
  {
    PartsAreWeightedRatesAndStray(parts, denominators);
    var rates := Rates(parts, denominators);
    var w, stray := Weighted(rates, denominators), Stray(parts, denominators);
    assert 100.0 * Sum(parts) == w + 100.0 * stray;
    SolveForMean(Sum(parts), Sum(denominators), w, stray);
    RateIsZeroIff(stray, Sum(denominators));
  }

  lemma SolveForMean(part: real, total: real, weighted: real, stray: real)
    requires total > 0.0 && 100.0 * part == weighted + 100.0 * stray
    ensures Rate(part, total) == weighted / total + Rate(stray, total)
  {
    assert part == weighted / 100.0 + stray;
    assert part / total == weighted / 100.0 / total + stray / total;
    assert weighted / 100.0 / total * 100.0 == weighted / total;
  }

  lemma RateIsZeroIff(part: real, total: real)
    requires total > 0.0
    ensures Rate(part, total) == 0.0 <==> part == 0.0
  {
    RateTimesDenominator(part, total);
  }

  /** Nothing is negative, nothing falls on a day without a denominator, and the rates of the
      other days lie between the bounds. */
  ghost predicate RatesWithin(parts: seq<real>, denominators: seq<real>, low: real, high: real)
    requires |parts| == |denominators|
  {
    && NonNegative(parts)
    && (forall i :: 0 <= i < |parts| && denominators[i] == 0.0 ==> parts[i] == 0.0)
    && (forall i :: 0 <= i < |parts| && denominators[i] > 0.0 ==> low <= Rate(parts[i], denominators[i]) <= high)
  }

  /**
   * With non-negative series, and no engagement on the days without a
   * denominator, the headline lies between any two bounds of the daily rates.
   */
  lemma HeadlineIsBetweenTheDailyRates(
    series: map<string, seq<real>>, days: Days, followers: int, present: Option<map<string, Mask>>, key: string,
    low: real, high: real)
    requires FirstDenominator(ENGAGEMENT_DENOMINATORS, series, days) == Some(key)
    requires EqualLengths(series, key) && NonNegative(Tail(series[key], days))
    requires var f := FractionOf(series, days, followers); RatesWithin(f.parts, f.denominators, low, high)
    ensures low <= EngagementRate(series, days, followers, present).value <= high
  {
    var f := FractionOf(series, days, followers);
    WindowsAgree(series, days, followers, key);
    FractionWithin(f.parts, f.denominators, low, high);
  }

  lemma FractionWithin(parts: seq<real>, denominators: seq<real>, low: real, high: real)
    requires |parts| == |denominators| && RatesWithin(parts, denominators, low, high)
    requires NonNegative(denominators) && Sum(denominators) > 0.0
    ensures low <= Rate(Sum(parts), Sum(denominators)) <= high
  {
    MeanWithoutStray(parts, denominators);
    MeanWithin(Rates(parts, denominators), denominators, low, high);
  }

  lemma MeanWithoutStray(parts: seq<real>, denominators: seq<real>)
    requires |parts| == |denominators| && NonNegative(parts) && NonNegative(denominators)
    requires Sum(denominators) > 0.0
    requires forall i :: 0 <= i < |parts| && denominators[i] == 0.0 ==> parts[i] == 0.0
    ensures Rate(Sum(parts), Sum(denominators)) == WeightedMean(Rates(parts, denominators), denominators)
  {
    NoStray(parts, denominators);
    MeanOfFraction(parts, denominators);
    RateIsZeroIff(Stray(parts, denominators), Sum(denominators));
  }

  lemma MeanWithin(rates: seq<real>, denominators: seq<real>, low: real, high: real)
    requires |rates| == |denominators| && NonNegative(denominators) && Sum(denominators) > 0.0
    requires forall i :: 0 <= i < |rates| && denominators[i] > 0.0 ==> low <= rates[i] <= high
    ensures low <= WeightedMean(rates, denominators) <= high
  {
    WeightedWithin(rates, denominators, low, high);
    var total, weighted := Sum(denominators), Weighted(rates, denominators);
    QuotientIsMonotone(Sum(Scaled(low, denominators)), weighted, total);
    QuotientIsMonotone(weighted, Sum(Scaled(high, denominators)), total);
    MeanOfScaled(low, denominators);
    MeanOfScaled(high, denominators);
  }

  lemma MeanOfScaled(rate: real, denominators: seq<real>)
    requires Sum(denominators) > 0.0
    ensures Sum(Scaled(rate, denominators)) / Sum(denominators) == rate
  {
    ScaledIsProduct(rate, denominators);
    ProductOverFactor(rate, Sum(denominators), Sum(Scaled(rate, denominators)));
  }

  lemma ProductOverFactor(a: real, d: real, product: real)
    requires d > 0.0 && product == a * d
    ensures product / d == a
  {
  }

  lemma QuotientIsMonotone(a: real, b: real, d: real)
    requires d > 0.0 && a <= b
    ensures a / d <= b / d
  {
  }

  /** How many points a chart shows before its trailing gap. */
  function Shown(rates: seq<real>, masks: seq<Mask>): (n: nat)
    ensures n <= |rates|
  {
    if rates == [] || masks == [] then |rates| else LastPresent(MaskAlignedRight(AnyPresent(masks), |rates|)) + 1
  }

  lemma {:induction false} KeptPrefix(values: seq<real>, reported: Mask, n: nat)
    requires n <= |values| == |reported| && forall i :: 0 <= i < |values| ==> (reported[i] <==> i < n)
    ensures Kept(values, reported) == values[..n]
  {
    if values != [] {
      KeptPrefix(values[1..], reported[1..], if n == 0 then 0 else n - 1);
    }
  }

  lemma ChartShowsAPrefix(rates: seq<real>, masks: seq<Mask>)
    ensures Points(Chart(rates, masks)) == rates[..Shown(rates, masks)]
  {
    if rates == [] || masks == [] {
      PointsOfAll(rates);
    } else {
      var reported := ReportedDays(MaskAlignedRight(AnyPresent(masks), |rates|), Count);
      PointsOfGapped(rates, reported);
      KeptPrefix(rates, reported, Shown(rates, masks));
    }
  }

  /**
   * On the follower fallback the headline is the sum of all daily rates, not their mean, whatever
   * masks are given: the points shown add up to the headline less the rates of the trailing gap.
   */
  lemma FallbackIsTheSumOfThePoints(
    series: map<string, seq<real>>, days: Days, followers: int, present: Option<map<string, Mask>>)
    requires FirstDenominator(ENGAGEMENT_DENOMINATORS, series, days) == None
    ensures var card, f := EngagementRate(series, days, followers, present), FractionOf(series, days, followers);
            var rates := Rates(f.parts, f.denominators);
            var shown := Shown(rates, RateMasks(series, days, present));
            && card.value == Sum(rates)
            && Points(card.series) == rates[..shown]
            && Sum(Points(card.series)) == card.value - Sum(rates[shown..])
            && card.denominator == if followers > 0 then Some("followers") else None
  {
    var f := FractionOf(series, days, followers);
    var rates, masks := Rates(f.parts, f.denominators), RateMasks(series, days, present);
    SumOfConstantRates(f.parts, f.denominators, followers as real);
    ShownAndHidden(rates, masks);
  }

  /** What a chart shows and what its trailing gap hides add up to all the rates. */
  lemma ShownAndHidden(rates: seq<real>, masks: seq<Mask>)
    ensures var shown := Shown(rates, masks);
            && Points(Chart(rates, masks)) == rates[..shown]
            && Sum(rates[..shown]) == Sum(rates) - Sum(rates[shown..])
  {
    var shown := Shown(rates, masks);
    ChartShowsAPrefix(rates, masks);
    assert rates == rates[..shown] + rates[shown..];
    SumConcat(rates[..shown], rates[shown..]);
  }

  lemma {:induction false} SumOfConstantRates(parts: seq<real>, denominators: seq<real>, d: real)
    requires |parts| == |denominators| && forall i :: 0 <= i < |parts| ==> denominators[i] == d
    ensures Sum(Rates(parts, denominators)) == Rate(Sum(parts), d)
  {
    if parts != [] {
      SumOfConstantRates(parts[1..], denominators[1..], d);
      assert Rates(parts, denominators)[1..] == Rates(parts[1..], denominators[1..]);
      RateOfSum(parts[0], Sum(parts[1..]), d);
    }
  }

  lemma RateOfSum(a: real, b: real, d: real)
    ensures Rate(a + b, d) == Rate(a, d) + Rate(b, d)
  {
    if d > 0.0 {
      QuotientOfSum(a, b, d);
    }
  }

  lemma QuotientOfSum(a: real, b: real, d: real)
    requires d > 0.0
    ensures (a + b) / d == a / d + b / d
  {
  }

  /** Whatever is present, the chart is the daily rates with a trailing run of
      gaps. */
  lemma GapsAreTrailing(rates: seq<real>, masks: seq<Mask>, i: nat, j: nat)
    requires i <= j < |rates|
    ensures var series := Chart(rates, masks);
            && |series| == |rates|
            && (series[j].Some? ==> series[j] == Some(rates[j]) && series[i].Some?)
  {
    if rates != [] && masks != [] {
      var reported := ReportedDays(MaskAlignedRight(AnyPresent(masks), |rates|), Count);
      GappedAt(rates, reported, i);
      GappedAt(rates, reported, j);
    }
  }

  lemma {:induction false} GappedAt(values: seq<real>, reported: Mask, i: nat)
    requires i < |values| && i < |reported|
    ensures Gapped(values, reported)[i] == if reported[i] then Some(values[i]) else None
  {
    if 0 < i {
      GappedAt(values[1..], reported[1..], i - 1);
    }
  }

  // ---------------------------------------------------------------------
  // Series of unequal length
  // ---------------------------------------------------------------------

  /** What a series holds for a day of `n`, counted back from its last. */
  function OfDay(s: seq<real>, n: nat, day: nat): (value: real)
    requires |s| <= n && day < n
  {
    var i := day - (n - |s|);
    if 0 <= i then s[i] else 0.0
  }

  /** All parts of one day, had every series been aligned with the last of `n` days. */
  function AlignedTotal(parts: seq<string>, series: map<string, seq<real>>, span: nat, n: nat, day: nat)
    : (total: real)
    requires forall k :: k in parts ==> k in series && |Tail(series[k], span)| <= n
    requires day < n
  {
    if parts == [] then 0.0
    else
      OfDay(Tail(series[parts[0]], span), n, day) + AlignedTotal(parts[1..], series, span, n, day)
  }

  /** A part that ends before the longest and has something to draw on this day. */
  predicate EarlyOn(series: map<string, seq<real>>, span: nat, n: nat, k: string, day: nat)
    requires k in series
  {
    var s := Tail(series[k], span);
    |s| < n && day < |s| && s[day] != 0.0
  }

  lemma {:induction false} LongestBounds(parts: seq<string>, series: map<string, seq<real>>, span: nat, k: string)
    requires k in parts && forall k :: k in parts ==> k in series
    ensures |Tail(series[k], span)| <= Longest(parts, series, span)
  {
    if k != parts[0] {
      LongestBounds(parts[1..], series, span, k);
    }
  }

  lemma PartNotEarly(series: map<string, seq<real>>, span: nat, n: nat, k: string, day: nat)
    requires k in series && |Tail(series[k], span)| <= n && day < n
    requires forall d: nat :: !EarlyOn(series, span, n, k, d)
    ensures OnDay(Tail(series[k], span), day) == OfDay(Tail(series[k], span), n, day)
  {
    var s := Tail(series[k], span);
    var i := day - (n - |s|);
    assert !EarlyOn(series, span, n, k, day);
    if 0 <= i {
      assert !EarlyOn(series, span, n, k, i);
    }
  }

  lemma {:induction false} NothingEarly(parts: seq<string>, series: map<string, seq<real>>, span: nat, n: nat, day: nat)
    requires forall k :: k in parts ==> k in series && |Tail(series[k], span)| <= n
    requires forall k, d: nat :: k in parts ==> !EarlyOn(series, span, n, k, d)
    requires day < n
    ensures DayTotal(parts, series, span, day) == AlignedTotal(parts, series, span, n, day)
  {
    if parts != [] {
      NothingEarly(parts[1..], series, span, n, day);
      PartNotEarly(series, span, n, parts[0], day);
    }
  }

  /** A part with nothing to draw before this day is not drawn too late on it. */
  lemma PartNotLate(series: map<string, seq<real>>, span: nat, n: nat, k: string, day: nat)
    requires k in series && |Tail(series[k], span)| <= n && NonNegative(Tail(series[k], span)) && day < n
    requires forall d: nat | d < day :: !EarlyOn(series, span, n, k, d)
    ensures OnDay(Tail(series[k], span), day) >= OfDay(Tail(series[k], span), n, day)
    ensures EarlyOn(series, span, n, k, day)
            ==> OnDay(Tail(series[k], span), day) > OfDay(Tail(series[k], span), n, day)
  {
    var s := Tail(series[k], span);
    var i := day - (n - |s|);
    if |s| < n && 0 <= i {
      assert !EarlyOn(series, span, n, k, i);
    }
  }

  lemma {:induction false} NoneLate(parts: seq<string>, series: map<string, seq<real>>, span: nat, n: nat, day: nat)
    requires forall k :: k in parts ==> k in series && |Tail(series[k], span)| <= n
    requires forall k :: k in parts ==> NonNegative(Tail(series[k], span))
    requires forall k, d: nat :: k in parts && d < day ==> !EarlyOn(series, span, n, k, d)
    requires day < n
    ensures DayTotal(parts, series, span, day) >= AlignedTotal(parts, series, span, n, day)
  {
    if parts != [] {
      NoneLate(parts[1..], series, span, n, day);
      PartNotLate(series, span, n, parts[0], day);
    }
  }

  /** On the first day on which a short part has something to draw, it is drawn too early. */
  lemma {:induction false} FirstEarlyDay(
    parts: seq<string>, series: map<string, seq<real>>, span: nat, n: nat, k: string, day: nat)
    requires forall k :: k in parts ==> k in series && |Tail(series[k], span)| <= n
    requires forall k :: k in parts ==> NonNegative(Tail(series[k], span))
    requires forall k, d: nat :: k in parts && d < day ==> !EarlyOn(series, span, n, k, d)
    requires k in parts && EarlyOn(series, span, n, k, day)
    ensures DayTotal(parts, series, span, day) > AlignedTotal(parts, series, span, n, day)
  {
    PartNotLate(series, span, n, parts[0], day);
    if k == parts[0] {
      NoneLate(parts[1..], series, span, n, day);
    } else {
      FirstEarlyDay(parts[1..], series, span, n, k, day);
    }
  }

  lemma {:induction false} SomeEarlyDay(
    parts: seq<string>, series: map<string, seq<real>>, span: nat, n: nat, day: nat) returns (first: nat)
    requires forall k :: k in parts ==> k in series
    requires exists k :: k in parts && EarlyOn(series, span, n, k, day)
    ensures exists k :: k in parts && EarlyOn(series, span, n, k, first)
    ensures forall k, d: nat :: k in parts && d < first ==> !EarlyOn(series, span, n, k, d)
  {
    first := day;
    if k, d: nat :| k in parts && d < day && EarlyOn(series, span, n, k, d) {
      first := SomeEarlyDay(parts, series, span, n, d);
    }
  }

  /**
   * Non-negative parts are drawn on their own days if and only if every part
   * that ends before the longest is zero throughout.
   */
  lemma PartsAreAlignedIff(parts: seq<string>, series: map<string, seq<real>>, span: nat, n: nat)
    requires forall k :: k in parts ==> k in series && NonNegative(Tail(series[k], span))
    requires n == Longest(parts, series, span)
    ensures forall k :: k in parts ==> |Tail(series[k], span)| <= n
    ensures (forall day: nat | day < n ::
               DayTotal(parts, series, span, day) == AlignedTotal(parts, series, span, n, day))
            <==> forall k, d: nat :: k in parts ==> !EarlyOn(series, span, n, k, d)
  {
    forall k | k in parts ensures |Tail(series[k], span)| <= n {
      LongestBounds(parts, series, span, k);
    }
    if k, d: nat :| k in parts && EarlyOn(series, span, n, k, d) {
      var first := SomeEarlyDay(parts, series, span, n, d);
      var early :| early in parts && EarlyOn(series, span, n, early, first);
      FirstEarlyDay(parts, series, span, n, early, first);
    } else {
      forall day: nat | day < n
        ensures DayTotal(parts, series, span, day) == AlignedTotal(parts, series, span, n, day)
      {
        NothingEarly(parts, series, span, n, day);
      }
    }
  }

  /** A shorter engagement series is aligned with the first day, not the last. With `part`
      reported for the second of two days only, and nothing to divide by on the first, the chart
      is flat at zero under a headline of `x` by `y`. */
  lemma ShortPartIsMisplaced(series: map<string, seq<real>>, part: string, other: string, key: string, x: real, y: real)
    requires PartKeys(ENGAGEMENT_PARTS, series) == [part, other]
    requires FirstDenominator(ENGAGEMENT_DENOMINATORS, series, 2) == Some(key)
    requires series[part] == [x] && series[other] == [0.0, 0.0] && series[key] == [0.0, y] && x > 0.0 && y > 0.0
    ensures var card := EngagementRate(series, 2, 0, None);
            card.value == Rate(x, y) && card.series == [Some(0.0), Some(0.0)]
  {
    ShortFraction(series, part, other, key, x, y);
    FlatChart(x, y);
  }

  lemma FlatChart(x: real, y: real)
    ensures Chart(Rates([x, 0.0], [0.0, y]), []) == [Some(0.0), Some(0.0)]
  {
    assert Rates([x, 0.0], [0.0, y]) == [0.0, 0.0];
  }

  lemma ShortFraction(series: map<string, seq<real>>, part: string, other: string, key: string, x: real, y: real)
    requires PartKeys(ENGAGEMENT_PARTS, series) == [part, other]
    requires FirstDenominator(ENGAGEMENT_DENOMINATORS, series, 2) == Some(key)
    requires series[part] == [x] && series[other] == [0.0, 0.0] && series[key] == [0.0, y]
    ensures var f := FractionOf(series, 2, 0); f.parts == [x, 0.0] && f.denominators == [0.0, y] && f.total == y
    ensures Sum(FractionOf(series, 2, 0).parts) == x
  {
    ShortPartsPerDay(series, part, other, x);
    TwoDays(series, key);
    SumOfTwo(x, 0.0);
    SumOfTwo(0.0, y);
  }

  lemma ShortPartsPerDay(series: map<string, seq<real>>, part: string, other: string, x: real)
    requires part in series && other in series && series[part] == [x] && series[other] == [0.0, 0.0]
    ensures TotalsPerDay([part, other], series, 4) == [x, 0.0]
  {
    var parts := [part, other];
    TwoParts(series, part, other, 0);
    TwoParts(series, part, other, 1);
    assert DayTotal(parts, series, 4, 0) == x;
    assert DayTotal(parts, series, 4, 1) == 0.0;
  }

  lemma TwoDays(series: map<string, seq<real>>, key: string)
    requires FirstDenominator(ENGAGEMENT_DENOMINATORS, series, 2) == Some(key)
    requires |PartsPerDay(series, 4)| == |series[key]| == 2
    ensures var f := FractionOf(series, 2, 0);
            f.parts == PartsPerDay(series, 4) && f.denominators == series[key] && f.total == Sum(series[key])
  {
    assert Tail(series[key], 4) == series[key];
    assert AlignedRight(series[key], 2) == series[key];
  }

  lemma TwoParts(series: map<string, seq<real>>, part: string, other: string, day: nat)
    requires part in series && other in series
    requires |series[part]| == 1 && |series[other]| == 2 && day < 2
    ensures Longest([part, other], series, 4) == 2
    ensures DayTotal([part, other], series, 4, day)
            == (if day < 1 then series[part][day] else 0.0) + series[other][day]
  {
    var parts, rest := [part, other], [other];
    assert parts[1..] == rest && rest[1..] == [];
    assert Longest(rest, series, 4) == 2;
    assert DayTotal(rest, series, 4, day) == series[other][day];
  }

  lemma SumOfTwo(a: real, b: real)
    ensures Sum([a, b]) == a + b
  {
    var s, rest := [a, b], [b];
    assert s[1..] == rest && rest[1..] == [];
    assert Sum(rest) == b;
  }

  // ---------------------------------------------------------------------
  // Windows, changes and sources, spelled out
  // ---------------------------------------------------------------------

  /** Where the last `n` elements of a sequence of this length begin. */
  function Back(length: nat, n: nat): (i: nat) {
    if length < n then 0 else length - n
  }

  lemma WindowsAreSlices<T>(s: seq<T>, days: Days)
    ensures Tail(s, days) == s[Back(|s|, days)..]
    ensures Earlier(s, days) == s[Back(|s|, 2 * days)..Back(|s|, days)]
  {
    if |s| > days {
      var front := s[..|s| - days];
      assert Tail(front, days) == front[Back(|front|, days)..];
    }
  }

  /** `after` is `before` changed by `delta` per cent; from nothing there is no change. */
  predicate ChangedBy(before: real, after: real, delta: real) {
    if before == 0.0 then delta == 0.0 else before * (1.0 + delta / 100.0) == after
  }

  lemma ChangeIsRight(before: real, after: real)
    ensures ChangedBy(before, after, Change(after, before))
  {
    if before != 0.0 {
      var ratio := (after - before) / before;
      assert ratio * before == after - before;
      assert Change(after, before) == ratio * 100.0;
      assert before * (1.0 + ratio) == before + ratio * before;
    }
  }

  /** A count on a card is the total of the last `days` values, and its delta the change from the
      total of as many values before them. */
  lemma CountAndItsChange(values: seq<real>, days: Days, present: Option<Mask>)
    ensures var card, n := Derive(values, days, Count, present), |values|;
            var before := Sum(values[Back(n, 2 * days)..Back(n, days)]);
            card.value == Sum(values[Back(n, days)..]) && ChangedBy(before, card.value, card.delta)
  {
    var n := |values|;
    WindowsAreSlices(values, days);
    ChangeIsRight(Sum(values[Back(n, 2 * days)..Back(n, days)]), Sum(values[Back(n, days)..]));
  }

  /** An average on a card changes from the average of the reported days of the period before. */
  lemma AverageAndItsChange(values: seq<real>, days: Days, kind: Kind, present: Mask)
    requires kind != Count
    ensures var card, n, m := Derive(values, days, kind, Some(present)), |values|, |present|;
            var earlier := present[Back(m, 2 * days)..Back(m, days)];
            var before := Mean(Kept(values[Back(n, 2 * days)..Back(n, days)], ReportedDays(earlier, kind)));
            ChangedBy(before, card.value, card.delta)
  {
    var card, n, m := Derive(values, days, kind, Some(present)), |values|, |present|;
    var earlier := present[Back(m, 2 * days)..Back(m, days)];
    WindowsAreSlices(values, days);
    WindowsAreSlices(present, days);
    ChangeIsRight(Mean(Kept(values[Back(n, 2 * days)..Back(n, days)], ReportedDays(earlier, kind))), card.value);
  }

  /** A chart shows a day's value, or a gap on a day that is not reported: of a rate, a day without
      a value; of a daily quantity, one with no value on it or after it. */
  lemma ChartOfOneMetric(values: seq<real>, days: Days, kind: Kind, present: Mask, i: nat)
    requires |values| == |present| && i < |Tail(values, days)|
    ensures var card, at := Derive(values, days, kind, Some(present)), Back(|values|, days) + i;
            var reported := if kind == Percent then present[at] else exists j :: at <= j < |present| && present[j];
            |card.series| == |Tail(values, days)| && card.series[i] == if reported then Some(values[at]) else None
  {
    WindowsAreSlices(values, days);
    WindowsAreSlices(present, days);
    var mask, start := Tail(present, days), Back(|values|, days);
    GappedAt(Tail(values, days), ReportedDays(mask, kind), i);
    if kind != Percent {
      UnreportedIsTheTrailingRun(mask, kind, i);
      if j :| start + i <= j < |present| && present[j] {
        assert mask[j - start];
      }
    }
  }

  lemma {:induction false} PartsAreTheListedMetrics(keys: seq<string>, series: map<string, seq<real>>, k: string)
    ensures multiset(PartKeys(keys, series))[k] == if k in series then multiset(keys)[k] else 0
  {
    if keys != [] {
      PartsAreTheListedMetrics(keys[1..], series, k);
      assert keys == [keys[0]] + keys[1..];
    }
  }

  /** Each of these nine counts once as engagement when the series has it, and nothing else does. */
  lemma EngagementIsTheNine(series: map<string, seq<real>>, k: string)
    ensures multiset(PartKeys(ENGAGEMENT_PARTS, series))[k]
            == if k in series && k in {"likes", "reactions", "comments", "replies", "shares", "reposts", "saves",
                                       "clicks", "outbound"} then 1 else 0
  {
    PartsAreTheListedMetrics(ENGAGEMENT_PARTS, series, k);
    TheNineDiffer(k);
  }

  lemma TheNineDiffer(k: string)
    ensures multiset(ENGAGEMENT_PARTS)[k]
            == if k in {"likes", "reactions", "comments", "replies", "shares", "reposts", "saves", "clicks",
                        "outbound"} then 1 else 0
  {
  }

  predicate HasData(series: map<string, seq<real>>, days: Days, key: string) {
    key in series && Sum(series[key][Back(|series[key]|, days)..]) > 0.0
  }

  /** The rate divides by the first of these with data in the period, in this order. */
  lemma DenominatorIsTheFirstWithData(series: map<string, seq<real>>, days: Days)
    ensures FirstDenominator(ENGAGEMENT_DENOMINATORS, series, days)
            == if HasData(series, days, "views") then Some("views")
               else if HasData(series, days, "reach") then Some("reach")
               else if HasData(series, days, "impressions") then Some("impressions")
               else if HasData(series, days, "plays") then Some("plays")
               else None
  {
    FirstOf("views", ["reach", "impressions", "plays"], series, days);
    FirstOf("reach", ["impressions", "plays"], series, days);
    FirstOf("impressions", ["plays"], series, days);
    FirstOf("plays", [], series, days);
  }

  lemma FirstOf(key: string, rest: seq<string>, series: map<string, seq<real>>, days: Days)
    ensures FirstDenominator([key] + rest, series, days)
            == if HasData(series, days, key) then Some(key) else FirstDenominator(rest, series, days)
  {
    if key in series {
      WindowsAreSlices(series[key], days);
    }
    assert ([key] + rest)[1..] == rest;
  }

  /** The delta of the engagement rate is the change from the rate of the period before: the parts
      of the days before by that period's denominators, or by the followers. */
  lemma RateAndItsChange(series: map<string, seq<real>>, days: Days, followers: int, present: Option<map<string, Mask>>)
    ensures var card := EngagementRate(series, days, followers, present);
            var perDay, key := PartsPerDay(series, 2 * days), FirstDenominator(ENGAGEMENT_DENOMINATORS, series, days);
            var now := Sum(perDay[Back(|perDay|, days)..]);
            var earlier := Sum(perDay[Back(|perDay|, 2 * days)..Back(|perDay|, days)]);
            match key
            case None =>
              card.value == Rate(now, followers as real)
              && ChangedBy(Rate(earlier, followers as real), card.value, card.delta)
            case Some(k) =>
              var s := series[k];
              && card.value == Rate(now, Sum(s[Back(|s|, days)..]))
              && ChangedBy(Rate(earlier, Sum(s[Back(|s|, 2 * days)..Back(|s|, days)])), card.value, card.delta)
  {
    var f, perDay := FractionOf(series, days, followers), PartsPerDay(series, 2 * days);
    WindowsAreSlices(perDay, days);
    ChangeIsRight(Rate(Sum(f.partsBefore), f.totalBefore), Rate(Sum(f.parts), f.total));
    var key := FirstDenominator(ENGAGEMENT_DENOMINATORS, series, days);
    if key.Some? {
      SpanWindows(series[key.value], days);
    }
  }

  lemma SpanWindows(s: seq<real>, days: Days)
    ensures Tail(Tail(s, 2 * days), days) == s[Back(|s|, days)..]
    ensures Earlier(Tail(s, 2 * days), days) == s[Back(|s|, 2 * days)..Back(|s|, days)]
  {
    WindowsAreSlices(s, days);
    WindowsAreSlices(Tail(s, 2 * days), days);
  }

  // ---------------------------------------------------------------------
  // Which days of the rate are shown
  // ---------------------------------------------------------------------

  lemma {:induction false} AnyPresentAt(masks: seq<Mask>, n: nat, j: nat)
    requires masks != [] && j < n && forall m :: m in masks ==> |m| == n
    ensures |AnyPresent(masks)| == n
    ensures AnyPresent(masks)[j] <==> exists m :: m in masks && m[j]
  {
    if |masks| > 1 {
      var rest := masks[1..];
      AnyPresentAt(rest, n, j);
      assert forall m :: m in masks <==> m == masks[0] || m in rest;
    }
  }

  /** With masks as long as the chart, a day of the rate is shown if and only if some of the metrics
      it depends on has a value on that day or later. */
  lemma RateIsShownIff(rates: seq<real>, masks: seq<Mask>, i: nat)
    requires i < |rates| && masks != [] && forall m :: m in masks ==> |m| == |rates|
    ensures |Chart(rates, masks)| == |rates|
    ensures Chart(rates, masks)[i]
            == if exists m, j: nat :: m in masks && i <= j < |rates| && m[j] then Some(rates[i]) else None
  {
    var any := AnyPresent(masks);
    AnyPresentAt(masks, |rates|, i);
    assert MaskAlignedRight(any, |rates|) == any;
    UnreportedIsTheTrailingRun(any, Count, i);
    GappedAt(rates, ReportedDays(any, Count), i);
    if ReportedDays(any, Count)[i] {
      var j :| i <= j < |any| && any[j];
      AnyPresentAt(masks, |rates|, j);
      var m :| m in masks && m[j];
    } else {
      forall m, j: nat | m in masks && i <= j < |rates|
        ensures !m[j]
      {
        AnyPresentAt(masks, |rates|, j);
      }
    }
  }

  /** It depends on its denominator, or on the follower fallback on all its parts. */
  lemma {:induction false} MasksAreOfTheBasis(basis: seq<string>, present: map<string, Mask>, days: Days, m: Mask)
    ensures m in MasksOf(basis, present, days)
            <==> exists k :: k in basis && k in present && m == present[k][Back(|present[k]|, days)..]
  {
    if basis != [] {
      var rest := basis[1..];
      MasksAreOfTheBasis(rest, present, days, m);
      assert forall k :: k in basis <==> k == basis[0] || k in rest;
      if basis[0] in present {
        WindowsAreSlices(present[basis[0]], days);
        var first := [Tail(present[basis[0]], days)];
        assert MasksOf(basis, present, days) == first + MasksOf(rest, present, days);
        assert m in first <==> m == first[0];
      } else {
        assert MasksOf(basis, present, days) == [] + MasksOf(rest, present, days);
      }
    }
  }

  lemma RateDependsOn(series: map<string, seq<real>>, days: Days, present: map<string, Mask>, m: Mask)
    ensures var key := FirstDenominator(ENGAGEMENT_DENOMINATORS, series, days);
            m in RateMasks(series, days, Some(present))
            <==> exists k :: (if key.Some? then k == key.value else k in PartKeys(ENGAGEMENT_PARTS, series))
                             && k in present && m == present[k][Back(|present[k]|, days)..]
  {
    var key := FirstDenominator(ENGAGEMENT_DENOMINATORS, series, days);
    MasksAreOfTheBasis(if key.Some? then [key.value] else PartKeys(ENGAGEMENT_PARTS, series), present, days, m);
  }
}
