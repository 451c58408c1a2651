/** The figures the dashboard, history and analytics pages derive from the
    ledger: the share of UP predictions, the recent-confidence trend, the
    confidence histogram and the per-month tallies. */
module Stats {
  import opened Wrappers
  import opened Numbers
  import opened Predictor
  import opened Ledger

  /** Number of UP records. */
  function CountUp(xs: seq<Record>): (r: nat)
    ensures r <= |xs|
  {
    if |xs| == 0 then 0 else (if xs[0].direction == Up then 1 else 0) + CountUp(xs[1..])
  }

  /** Number of DOWN records. */
  function CountDown(xs: seq<Record>): nat
  {
    if |xs| == 0 then 0 else (if xs[0].direction == Down then 1 else 0) + CountDown(xs[1..])
  }

  /** Every record is UP or DOWN, never both. */
  lemma {:induction false} UpDownPartition(xs: seq<Record>)
    ensures CountUp(xs) + CountDown(xs) == |xs|
  {
    if |xs| > 0 {
      UpDownPartition(xs[1..]);
    }
  }

  /** `(up / total) * 100` for a part of a positive whole. */
  function Percent(up: nat, total: nat): (r: real)
    requires 0 < total && up <= total
    ensures 0.0 <= r <= 100.0
    ensures up == 0 ==> r == 0.0
    ensures up == total ==> r == 100.0
  {
    var q := (up as real) / (total as real);
    assert q <= 1.0 by {
      assert q * (total as real) == up as real;
    }
    q * 100.0
  }

  /** `Math.round((up / (n || 1)) * 100)`: the dashboard's "accuracy" and
      the history page's "success rate", both the share of UP records
      rounded to a whole percent. */
  function UpShare(xs: seq<Record>): (r: int)
    ensures 0 <= r <= 100
    ensures CountUp(xs) == 0 ==> r == 0
    ensures |xs| > 0 && CountUp(xs) == |xs| ==> r == 100
    ensures |xs| > 0 ==> (r as real) - 0.5 <= Percent(CountUp(xs), |xs|) < (r as real) + 0.5
  {
    JsRound(Percent(CountUp(xs), if |xs| == 0 then 1 else |xs|))
  }

  /** The two bars of `directionData`. */
  datatype DirectionCounts = DirectionCounts(bullish: nat, bearish: nat)

  /** `directionData`: the UP count and the rest, which are exactly the DOWN records. */
  function DirectionData(xs: seq<Record>): (r: DirectionCounts)
    ensures r.bullish + r.bearish == |xs|
    ensures r.bullish == CountUp(xs) && r.bearish == CountDown(xs)
  {
    UpDownPartition(xs);
    DirectionCounts(CountUp(xs), |xs| - CountUp(xs))
  }

  /** The histogram bucket of a confidence: cut points 60, 70, 80 and 90,
      everything below 60 in the first and everything from 90 in the last. */
  function Bucket(c: int): (r: nat)
    ensures r < 5
    ensures r == 0 <==> c < 60
    ensures r == 4 <==> c >= 90
    ensures 0 < r ==> 50 + 10 * r <= c
    ensures r < 4 ==> c < 60 + 10 * r
  {
    if c < 60 then 0 else if c < 70 then 1 else if c < 80 then 2 else if c < 90 then 3 else 4
  }

  /** Number of records whose confidence falls in bucket `k`. */
  function CountBucket(xs: seq<Record>, k: nat): nat
  {
    if |xs| == 0 then 0 else (if Bucket(xs[0].confidence) == k then 1 else 0) + CountBucket(xs[1..], k)
  }

  function Total(counts: seq<nat>): nat
  {
    if |counts| == 0 then 0 else counts[0] + Total(counts[1..])
  }

  lemma {:induction false} TotalBump(counts: seq<nat>, k: nat)
    requires k < |counts|
    ensures Total(counts[k := counts[k] + 1]) == Total(counts) + 1
  {
    if k > 0 {
      assert counts[k := counts[k] + 1][1..] == counts[1..][k - 1 := counts[k] + 1];
      TotalBump(counts[1..], k - 1);
    }
  }

  /** `confidenceDistribution`: five bucket counts that add up to the
      number of records, each counting exactly its bucket's records. */
  function ConfidenceDistribution(xs: seq<Record>): (r: seq<nat>)
    ensures |r| == 5
    ensures Total(r) == |xs|
    ensures forall k :: 0 <= k < 5 ==> r[k] == CountBucket(xs, k)
  {
    if |xs| == 0 then
      assert Total([0, 0, 0, 0, 0]) == 0;
      [0, 0, 0, 0, 0]
    else
      var rest := ConfidenceDistribution(xs[1..]);
      var b := Bucket(xs[0].confidence);
      TotalBump(rest, b);
      rest[b := rest[b] + 1]
  }

  /** One point of the dashboard's confidence trend. */
  datatype TrendPoint = TrendPoint(date: string, confidence: int)

  function Points(xs: seq<Record>): (r: seq<TrendPoint>)
    ensures |r| == |xs|
    ensures forall i :: 0 <= i < |xs| ==> r[i] == TrendPoint(xs[i].date, xs[i].confidence)
  {
    seq(|xs|, i requires 0 <= i < |xs| => TrendPoint(xs[i].date, xs[i].confidence))
  }

  /** `trend`: the newest seven records reversed, so the oldest of them
      comes first, each reduced to its date and confidence. */
  function Trend(xs: seq<Record>): (r: seq<TrendPoint>)
    ensures |r| == Min(7, |xs|)
    ensures forall i :: 0 <= i < |r| ==>
              r[i] == TrendPoint(xs[|r| - 1 - i].date, xs[|r| - 1 - i].confidence)
  {
    Points(Reverse(xs[..Min(7, |xs|)]))
  }

  /** The four dashboard figures. */
  datatype Dashboard = Dashboard(trend: seq<TrendPoint>, accuracy: int, total: nat, lastDirection: string)

  /** `lastDirection || "N/A"` where `lastDirection` is the newest record's. */
  function DirectionLabel(xs: seq<Record>): (r: string)
    ensures r == "N/A" <==> |xs| == 0
    ensures |xs| > 0 ==> (r == "UP" <==> xs[0].direction == Up)
  {
    if |xs| == 0 then "N/A" else if xs[0].direction == Up then "UP" else "DOWN"
  }

  function DashboardOf(xs: seq<Record>): (r: Dashboard)
    ensures r.trend == Trend(xs) && r.accuracy == UpShare(xs) && r.lastDirection == DirectionLabel(xs)
    ensures r.total == |xs|
  {
    Dashboard(Trend(xs), UpShare(xs), |xs|, DirectionLabel(xs))
  }

  /** After a prediction is added, the dashboard shows its direction and its
      point closes the trend; the total grows by one until the capacity. */
  lemma DashboardAfterAdd(xs: seq<Record>, p: Record)
    ensures DashboardOf(Insert(xs, p)).lastDirection == (if p.direction == Up then "UP" else "DOWN")
    ensures var t := DashboardOf(Insert(xs, p)).trend;
            |t| > 0 && t[|t| - 1] == TrendPoint(p.date, p.confidence)
    ensures DashboardOf(Insert(xs, p)).total == Min(|xs| + 1, Capacity)
  {
  }

  /** The history page's figures: success rate, total, the "This Month"
      count (the first 30 records) and the listing in stored order. */
  datatype History = History(successRate: int, total: nat, thisMonth: nat, listing: seq<Record>)

  function HistoryOf(xs: seq<Record>): (r: History)
    ensures r.successRate == UpShare(xs)
    ensures r.total == |xs| && r.thisMonth == Min(30, |xs|) && r.listing == xs
  {
    History(UpShare(xs), |xs|, |xs[..Min(30, |xs|)]|, xs)
  }

  /** `p.date.slice(0, 7)`. */
  function MonthKey(date: string): (r: string)
    ensures |r| <= 7 && |r| <= |date| && r == date[..|r|]
    ensures |date| >= 7 ==> |r| == 7
  {
    if |date| <= 7 then date else date[..7]
  }

  /** The tally kept for one month. */
  datatype MonthTally = MonthTally(month: string, predictions: nat, up: nat)

  predicate DistinctMonths(es: seq<MonthTally>)
  {
    forall i, j :: 0 <= i < j < |es| ==> es[i].month != es[j].month
  }

  predicate HasMonth(es: seq<MonthTally>, m: string)
  {
    exists i :: 0 <= i < |es| && es[i].month == m
  }

  function TotalPredictions(es: seq<MonthTally>): nat
  {
    if |es| == 0 then 0 else es[0].predictions + TotalPredictions(es[1..])
  }

  function Bit(b: bool): nat { if b then 1 else 0 }

  /** Records of month `m` among `xs`. */
  function CountMonth(xs: seq<Record>, m: string): nat
  {
    if |xs| == 0 then 0 else CountMonth(xs[..|xs| - 1], m) + Bit(MonthKey(xs[|xs| - 1].date) == m)
  }

  /** UP records of month `m` among `xs`. */
  function CountMonthUp(xs: seq<Record>, m: string): nat
  {
    if |xs| == 0 then 0
    else CountMonthUp(xs[..|xs| - 1], m) + Bit(MonthKey(xs[|xs| - 1].date) == m && xs[|xs| - 1].direction == Up)
  }

  /** The position of month `m` among the tallies, if it has one. */
  function FindMonth(es: seq<MonthTally>, m: string): (r: Option<nat>)
    ensures r.None? <==> !HasMonth(es, m)
    ensures r.Some? ==> r.value < |es| && es[r.value].month == m
  {
    if |es| == 0 then None
    else if es[0].month == m then Some(0)
    else
      match FindMonth(es[1..], m)
      case None => None
      case Some(i) => Some(i + 1)
  }

  /** A tally with one more record, UP or not. */
  function Bump(e: MonthTally, up: bool): MonthTally
  {
    MonthTally(e.month, e.predictions + 1, e.up + Bit(up))
  }

  /** One step of the `forEach`: count a record of month `m` in its tally,
      opening a new tally at the end for a month not seen before. */
  function Tally(es: seq<MonthTally>, m: string, up: bool): (r: seq<MonthTally>)
    requires DistinctMonths(es)
    ensures DistinctMonths(r)
    ensures |r| == if HasMonth(es, m) then |es| else |es| + 1
    ensures forall i :: 0 <= i < |es| ==> r[i] == if es[i].month == m then Bump(es[i], up) else es[i]
    ensures !HasMonth(es, m) ==> r[|es|] == MonthTally(m, 1, Bit(up))
    ensures TotalPredictions(r) == TotalPredictions(es) + 1
  {
    match FindMonth(es, m)
    case Some(k) =>
      TotalUpdate(es, k, Bump(es[k], up));
      es[k := Bump(es[k], up)]
    case None =>
      TotalAppend(es, MonthTally(m, 1, Bit(up)));
      es + [MonthTally(m, 1, Bit(up))]
  }

  lemma {:induction false} TotalUpdate(es: seq<MonthTally>, k: nat, e: MonthTally)
    requires k < |es|
    ensures TotalPredictions(es[k := e]) == TotalPredictions(es) - es[k].predictions + e.predictions
  {
    if k > 0 {
      assert es[k := e][1..] == es[1..][k - 1 := e];
      TotalUpdate(es[1..], k - 1, e);
    }
  }

  lemma {:induction false} TotalAppend(es: seq<MonthTally>, e: MonthTally)
    ensures TotalPredictions(es + [e]) == TotalPredictions(es) + e.predictions
  {
    if |es| > 0 {
      assert (es + [e])[1..] == es[1..] + [e];
      TotalAppend(es[1..], e);
    }
  }

  /** `es` is the tally of `xs`: one entry per month that occurs, each
      counting exactly that month's records and UP records, together
      counting every record once. */
  ghost predicate TalliesOf(es: seq<MonthTally>, xs: seq<Record>)
  {
    && DistinctMonths(es)
    && (forall i :: 0 <= i < |es| ==>
          es[i].predictions == CountMonth(xs, es[i].month) && es[i].up == CountMonthUp(xs, es[i].month))
    && (forall m :: HasMonth(es, m) <==> CountMonth(xs, m) > 0)
    && TotalPredictions(es) == |xs|
  }

  /** The month tallies of `performanceData`, in order of first appearance. */
  function MonthTallies(xs: seq<Record>): (r: seq<MonthTally>)
    ensures TalliesOf(r, xs)
  {
    if |xs| == 0 then []
    else
      var es := MonthTallies(xs[..|xs| - 1]);
      TallyStep(es, xs);
      Tally(es, MonthKey(xs[|xs| - 1].date), xs[|xs| - 1].direction == Up)
  }

  lemma TallyStep(es: seq<MonthTally>, xs: seq<Record>)
    requires |xs| > 0 && TalliesOf(es, xs[..|xs| - 1])
    ensures TalliesOf(Tally(es, MonthKey(xs[|xs| - 1].date), xs[|xs| - 1].direction == Up), xs)
  {
    var m := MonthKey(xs[|xs| - 1].date);
    TallyStepMonths(es, m, xs[|xs| - 1].direction == Up);
    TallyStepCounts(es, xs);
    TallyStepUps(es, xs);
  }

  /** After a step each tally still counts its month's records. */
  lemma TallyStepCounts(es: seq<MonthTally>, xs: seq<Record>)
    requires |xs| > 0 && TalliesOf(es, xs[..|xs| - 1])
    ensures var r := Tally(es, MonthKey(xs[|xs| - 1].date), xs[|xs| - 1].direction == Up);
            forall i :: 0 <= i < |r| ==> r[i].predictions == CountMonth(xs, r[i].month)
  {
    var m := MonthKey(xs[|xs| - 1].date);
    var r := Tally(es, m, xs[|xs| - 1].direction == Up);
    forall i | 0 <= i < |r| ensures r[i].predictions == CountMonth(xs, r[i].month) {
      assert CountMonth(xs, r[i].month) == CountMonth(xs[..|xs| - 1], r[i].month) + Bit(m == r[i].month);
    }
  }

  /** After a step each tally still counts its month's UP records. */
  lemma TallyStepUps(es: seq<MonthTally>, xs: seq<Record>)
    requires |xs| > 0 && TalliesOf(es, xs[..|xs| - 1])
    ensures var r := Tally(es, MonthKey(xs[|xs| - 1].date), xs[|xs| - 1].direction == Up);
            forall i :: 0 <= i < |r| ==> r[i].up == CountMonthUp(xs, r[i].month)
  {
    var m := MonthKey(xs[|xs| - 1].date);
    var up := xs[|xs| - 1].direction == Up;
    var r := Tally(es, m, up);
    forall i | 0 <= i < |r| ensures r[i].up == CountMonthUp(xs, r[i].month) {
      assert CountMonthUp(xs, r[i].month) == CountMonthUp(xs[..|xs| - 1], r[i].month) + Bit(m == r[i].month && up);
      if i == |es| {
        CountMonthUpBounded(xs[..|xs| - 1], m);
      }
    }
  }

  /** The months of a tally step: the old ones and `m`. */
  lemma TallyStepMonths(es: seq<MonthTally>, m: string, up: bool)
    requires DistinctMonths(es)
    ensures forall k :: HasMonth(Tally(es, m, up), k) <==> HasMonth(es, k) || k == m
  {
    var r := Tally(es, m, up);
    forall k ensures HasMonth(r, k) <==> HasMonth(es, k) || k == m {
      if HasMonth(r, k) {
        var i :| 0 <= i < |r| && r[i].month == k;
        if i < |es| {
          assert es[i].month == k || k == m;
        }
      }
      if HasMonth(es, k) {
        var i :| 0 <= i < |es| && es[i].month == k;
        assert r[i].month == k;
      }
      if k == m && !HasMonth(es, k) {
        assert r[|es|].month == k;
      }
    }
  }

  /** A month has no more UP records than records. */
  lemma {:induction false} CountMonthUpBounded(xs: seq<Record>, m: string)
    ensures CountMonthUp(xs, m) <= CountMonth(xs, m)
  {
    if |xs| > 0 {
      CountMonthUpBounded(xs[..|xs| - 1], m);
    }
  }

  /** One entry of `performanceData`. */
  datatype MonthPoint = MonthPoint(month: string, accuracy: int, predictions: nat)

  /** `Math.round((up / predictions) * 100)`, a percentage: the whole
      percent nearest the month's UP share, halves rounded up. */
  function MonthAccuracy(up: nat, predictions: nat): (r: int)
    requires 0 < predictions && up <= predictions
    ensures 0 <= r <= 100
    ensures up == 0 ==> r == 0
    ensures up == predictions ==> r == 100
    ensures (r as real) - 0.5 <= Percent(up, predictions) < (r as real) + 0.5
  {
    JsRound(Percent(up, predictions))
  }

  /** `performanceData`: for every distinct month, in order of first
      appearance, its UP share as a whole percent and its record count. */
  function PerformanceData(xs: seq<Record>): (r: seq<MonthPoint>)
    ensures |r| == |MonthTallies(xs)|
    ensures forall i :: 0 <= i < |r| ==>
              && r[i].month == MonthTallies(xs)[i].month
              && r[i].predictions == CountMonth(xs, r[i].month) > 0
              && CountMonthUp(xs, r[i].month) <= r[i].predictions
              && r[i].accuracy == MonthAccuracy(CountMonthUp(xs, r[i].month), r[i].predictions)
  {
    var es := MonthTallies(xs);
    seq(|es|, i requires 0 <= i < |es| => PointOf(xs, es, i))
  }

  /** The months of `performanceData` come in order of first appearance. */
  lemma PerformanceDataFirstSeenOrder(xs: seq<Record>)
    ensures var r := PerformanceData(xs);
            forall i, j :: 0 <= i < j < |r| ==> FirstMonthIndex(xs, r[i].month) < FirstMonthIndex(xs, r[j].month)
  {
    MonthTalliesFirstSeenOrder(xs);
  }

  function PointOf(xs: seq<Record>, es: seq<MonthTally>, i: nat): (r: MonthPoint)
    requires TalliesOf(es, xs) && i < |es|
    ensures r.month == es[i].month && r.predictions == CountMonth(xs, r.month) > 0
    ensures CountMonthUp(xs, r.month) <= r.predictions
    ensures r.accuracy == MonthAccuracy(CountMonthUp(xs, r.month), r.predictions)
  {
    assert HasMonth(es, es[i].month);
    CountMonthUpBounded(xs, es[i].month);
    MonthPoint(es[i].month, MonthAccuracy(es[i].up, es[i].predictions), es[i].predictions)
  }

  /** The position of the first record of month `m`, or `|xs|` when there
      is none. */
  function FirstMonthIndex(xs: seq<Record>, m: string): (r: nat)
    ensures r <= |xs|
    ensures r < |xs| ==> MonthKey(xs[r].date) == m
    ensures forall j :: 0 <= j < r && j < |xs| ==> MonthKey(xs[j].date) != m
  {
    if |xs| == 0 then 0
    else
      var k := FirstMonthIndex(xs[..|xs| - 1], m);
      if k < |xs| - 1 then k
      else if MonthKey(xs[|xs| - 1].date) == m then |xs| - 1
      else |xs|
  }

  /** A month has records exactly when its first record lies inside the list. */
  lemma {:induction false} FirstMonthIndexCounts(xs: seq<Record>, m: string)
    ensures FirstMonthIndex(xs, m) < |xs| <==> CountMonth(xs, m) > 0
  {
    if |xs| > 0 {
      FirstMonthIndexCounts(xs[..|xs| - 1], m);
    }
  }

  /** Tallies listed in the order in which their months first appear in `xs`. */
  ghost predicate FirstSeenOrder(es: seq<MonthTally>, xs: seq<Record>)
  {
    forall i, j :: 0 <= i < j < |es| ==> FirstMonthIndex(xs, es[i].month) < FirstMonthIndex(xs, es[j].month)
  }

  /** The tallies come in the order in which their months first appear. */
  lemma {:induction false} MonthTalliesFirstSeenOrder(xs: seq<Record>)
    ensures FirstSeenOrder(MonthTallies(xs), xs)
  {
    if |xs| > 0 {
      var p := xs[..|xs| - 1];
      MonthTalliesFirstSeenOrder(p);
      FirstSeenStep(xs, MonthTallies(p));
    }
  }

  /** Counting the last record keeps the tallies in first-seen order. */
  lemma FirstSeenStep(xs: seq<Record>, es: seq<MonthTally>)
    requires |xs| > 0 && TalliesOf(es, xs[..|xs| - 1]) && FirstSeenOrder(es, xs[..|xs| - 1])
    ensures FirstSeenOrder(Tally(es, MonthKey(xs[|xs| - 1].date), xs[|xs| - 1].direction == Up), xs)
  {
    var n := |xs|;
    var p := xs[..n - 1];
    var m := MonthKey(xs[n - 1].date);
    var r := Tally(es, m, xs[n - 1].direction == Up);
    forall i | 0 <= i < |es|
      ensures r[i].month == es[i].month
      ensures FirstMonthIndex(xs, r[i].month) == FirstMonthIndex(p, es[i].month) < n - 1
    {
      assert HasMonth(es, es[i].month);
      FirstMonthIndexKept(xs, es[i].month);
    }
    if !HasMonth(es, m) {
      FirstMonthIndexNew(xs);
      assert r[|es|].month == m;
    }
  }

  /** A month already seen before the last record keeps its first position. */
  lemma FirstMonthIndexKept(xs: seq<Record>, k: string)
    requires |xs| > 0 && CountMonth(xs[..|xs| - 1], k) > 0
    ensures FirstMonthIndex(xs, k) == FirstMonthIndex(xs[..|xs| - 1], k) < |xs| - 1
  {
    FirstMonthIndexCounts(xs[..|xs| - 1], k);
  }

  /** A month first seen in the last record starts there. */
  lemma FirstMonthIndexNew(xs: seq<Record>)
    requires |xs| > 0 && CountMonth(xs[..|xs| - 1], MonthKey(xs[|xs| - 1].date)) == 0
    ensures FirstMonthIndex(xs, MonthKey(xs[|xs| - 1].date)) == |xs| - 1
  {
    FirstMonthIndexCounts(xs[..|xs| - 1], MonthKey(xs[|xs| - 1].date));
  }
}
