/** The prediction server's `/predict` and `/predict-file` endpoints: the
    cascade over yfinance, the Yahoo chart API and Stooq, the cut to the
    latest 500 closes, and the CSV upload. The remote replies and the loaded
    model's computations are parameters. */
module Server {
  import opened Wrappers
  import opened Seqs
  import opened Text
  import opened Numbers
  import opened Calendar
  import opened Predictor
  import opened Feeds

  /** A row of a source: its date and its close, None for NaN or `null`. */
  datatype Point = Point(date: string, close: Option<real>)

  /** A close that is present, with its date. */
  datatype DatedClose = DatedClose(date: string, value: real)

  /** What one source contributes: it raised out of the endpoint, it gave no
      close, or its closes together with the date reported for them. */
  datatype SourceOutcome = Raised | NoCloses | Closes(values: seq<real>, lastDate: string)

  /** A source never reports an empty list of closes as a success. */
  predicate WellFormed(o: SourceOutcome)
  {
    o.Closes? ==> |o.values| > 0
  }

  /** At most this many of the latest closes reach the model. */
  const ServerPoints: nat := 500

  /** The `source` label of each position of the cascade. */
  const SourceLabels: seq<string> := ["yfinance", "yahoo_chart", "stooq", "stooq"]

  function PresentClose(p: Point): Option<DatedClose>
  {
    match p.close
    case Some(v) => Some(DatedClose(p.date, v))
    case None => None
  }

  /** pandas `dropna` and the chart loop's `if c[i] is None: continue`. */
  function Present(points: seq<Point>): (r: seq<DatedClose>)
    ensures |r| <= |points|
  {
    FilterMap(points, PresentClose)
  }

  function Values(cs: seq<DatedClose>): (r: seq<real>)
    ensures |r| == |cs|
    ensures forall i :: 0 <= i < |cs| ==> r[i] == cs[i].value
  {
    seq(|cs|, i requires 0 <= i < |cs| => cs[i].value)
  }

  /** Exactly the rows that have a close survive, in their order and with
      their dates. */
  lemma PresentOrigins(points: seq<Point>) returns (idx: seq<nat>)
    ensures |idx| == |Present(points)|
    ensures forall k :: 0 <= k < |idx| ==>
              idx[k] < |points| && points[idx[k]].date == Present(points)[k].date &&
              points[idx[k]].close == Some(Present(points)[k].value)
    ensures forall k, l :: 0 <= k < l < |idx| ==> idx[k] < idx[l]
    ensures forall i :: 0 <= i < |points| && points[i].close.Some? ==> i in idx
  {
    idx := FilterMapOrigins(points, PresentClose);
    forall k | 0 <= k < |idx|
      ensures points[idx[k]].date == Present(points)[k].date &&
              points[idx[k]].close == Some(Present(points)[k].value)
    {
      assert PresentClose(points[idx[k]]) == Some(Present(points)[k]);
    }
    forall i | 0 <= i < |points| && points[i].close.Some? ensures i in idx {
      assert PresentClose(points[i]).Some?;
    }
  }

  /** Every kept close comes from a row with that date and close. */
  lemma PresentFrom(points: seq<Point>)
    ensures forall k :: 0 <= k < |Present(points)| ==>
              exists i :: 0 <= i < |points| && points[i].date == Present(points)[k].date &&
                          points[i].close == Some(Present(points)[k].value)
  {
    var idx := PresentOrigins(points);
    forall k | 0 <= k < |Present(points)|
      ensures exists i :: 0 <= i < |points| && points[i].date == Present(points)[k].date &&
                          points[i].close == Some(Present(points)[k].value)
    {
      assert points[idx[k]].date == Present(points)[k].date;
    }
  }

  /** yfinance: a download that raised (None) or an empty frame gives
      nothing; otherwise the closes without NaN, dated by the frame's last
      row. */
  function YfOutcome(frame: Option<seq<Point>>): (r: SourceOutcome)
    ensures WellFormed(r) && !r.Raised?
    ensures r.Closes? <==> frame.Some? && exists i :: 0 <= i < |frame.value| && frame.value[i].close.Some?
    ensures r.Closes? ==> r.values == Values(Present(frame.value))
    ensures r.Closes? ==> r.lastDate == frame.value[|frame.value| - 1].date
  {
    match frame
    case None => NoCloses
    case Some(rows) =>
      var kept := Present(rows);
      if |kept| == 0 then
        assert forall i :: 0 <= i < |rows| ==> rows[i].close.None? by {
          PresentNone(rows);
        }
        NoCloses
      else
        assert exists i :: 0 <= i < |rows| && rows[i].close.Some? by {
          PresentFrom(rows);
          assert Present(rows)[0] == kept[0];
        }
        Closes(Values(kept), rows[|rows| - 1].date)
  }

  /** Nothing is kept only when no row has a close. */
  lemma {:induction false} PresentNone(points: seq<Point>)
    requires Present(points) == []
    ensures forall i :: 0 <= i < |points| ==> points[i].close.None?
    decreases |points|
  {
    if |points| > 0 {
      assert PresentClose(points[0]).None?;
      PresentNone(points[1..]);
      forall i | 1 <= i < |points| ensures points[i].close.None? {
        assert points[1..][i - 1] == points[i];
      }
    }
  }

  /** yfinance dates its closes by the frame's last row even when that
      row's close is missing and an earlier one is not. */
  lemma YfDateIsLastRow(rows: seq<Point>, d1: string, d2: string, c: real)
    requires rows == [Point(d1, Some(c)), Point(d2, None)]
    ensures YfOutcome(Some(rows)) == Closes([c], d2)
  {
    assert FilterMap(rows[1..][1..], PresentClose) == [];
    assert FilterMap(rows[1..], PresentClose) == [];
    assert Present(rows) == [DatedClose(d1, c)];
  }

  /** The closes of a chart reply, paired by position up to the shorter of
      the two arrays. */
  function ChartPoints(reply: ChartReply): (r: seq<Point>)
    ensures |r| == Min(|reply.dates|, |reply.closes|)
    ensures forall i :: 0 <= i < |r| ==> r[i] == Point(reply.dates[i], reply.closes[i])
  {
    seq(Min(|reply.dates|, |reply.closes|),
        i requires 0 <= i < Min(|reply.dates|, |reply.closes|) => Point(reply.dates[i], reply.closes[i]))
  }

  /** The Yahoo chart fallback: every failure (a date `fromisoformat`
      rejects, a request that raised, a status other than 200) is caught and
      gives nothing; otherwise the non-null closes, dated by the last of
      them. */
  function ChartOutcome(start: string, end: string, resp: Response<ChartReply>): (r: SourceOutcome)
    ensures WellFormed(r) && !r.Raised?
    ensures IsoDay(start).None? || IsoDay(end).None? || !resp.Body? ==> r == NoCloses
    ensures IsoDay(start).Some? && IsoDay(end).Some? && resp.Body? ==>
              (r.Closes? <==> Present(ChartPoints(resp.body)) != [])
    ensures r.Closes? ==> var kept := Present(ChartPoints(resp.body));
                          kept != [] && r.values == Values(kept) && r.lastDate == kept[|kept| - 1].date
    ensures r.Closes? ==> |r.values| <= Min(|resp.body.dates|, |resp.body.closes|)
    ensures r.Closes? ==> r.lastDate in resp.body.dates
  {
    if IsoDay(start).None? || IsoDay(end).None? then NoCloses
    else
      match resp
      case Body(reply) =>
        var pts := ChartPoints(reply);
        var kept := Present(pts);
        if |kept| == 0 then NoCloses
        else
          assert kept[|kept| - 1].date in reply.dates by {
            PresentFrom(pts);
          }
          Closes(Values(kept), kept[|kept| - 1].date)
      case _ => NoCloses
  }

  /** A calendar date `fromisoformat` accepts, between two day numbers. */
  predicate InDayRange(date: string, lo: int, hi: int)
  {
    IsoDay(date).Some? && lo <= IsoDay(date).value <= hi
  }

  /** One Stooq data row: kept when its date cell is a date inside the range
      and its close cell is a number; a short row, a bad date or a bad number
      is skipped. */
  function StooqRow(cols: seq<string>, iDate: nat, iClose: nat, lo: int, hi: int): (r: Option<DatedClose>)
    ensures r.Some? <==> iDate < |cols| && iClose < |cols| && InDayRange(cols[iDate], lo, hi) &&
                         PyFloat(cols[iClose]).Some?
    ensures r.Some? ==> r.value == DatedClose(cols[iDate], PyFloat(cols[iClose]).value)
  {
    if iDate < |cols| && iClose < |cols| && IsoDay(cols[iDate]).Some? && PyFloat(cols[iClose]).Some? then
      var day := IsoDay(cols[iDate]).value;
      if lo <= day <= hi then Some(DatedClose(cols[iDate], PyFloat(cols[iClose]).value)) else None
    else None
  }

  /** `StooqRow` with the columns and the range fixed. */
  function StooqKeep(iDate: nat, iClose: nat, lo: int, hi: int): seq<string> -> Option<DatedClose>
  {
    (cols: seq<string>) => StooqRow(cols, iDate, iClose, lo, hi)
  }

  /** The kept Stooq rows, every one dated inside the range. */
  function StooqKept(rows: seq<seq<string>>, iDate: nat, iClose: nat, lo: int, hi: int): (r: seq<DatedClose>)
    ensures |r| <= |rows|
    ensures forall k :: 0 <= k < |r| ==> InDayRange(r[k].date, lo, hi)
  {
    FilterMapAll(rows, StooqKeep(iDate, iClose, lo, hi), (c: DatedClose) => InDayRange(c.date, lo, hi));
    FilterMap(rows, StooqKeep(iDate, iClose, lo, hi))
  }

  /** Exactly the Stooq rows `StooqRow` keeps survive, in their order, each
      with its own date and close. */
  lemma StooqKeptOrigins(rows: seq<seq<string>>, iDate: nat, iClose: nat, lo: int, hi: int) returns (idx: seq<nat>)
    ensures var kept := StooqKept(rows, iDate, iClose, lo, hi);
            |idx| == |kept| &&
            (forall k :: 0 <= k < |idx| ==>
               idx[k] < |rows| && StooqRow(rows[idx[k]], iDate, iClose, lo, hi) == Some(kept[k]))
    ensures forall k, l :: 0 <= k < l < |idx| ==> idx[k] < idx[l]
    ensures forall i :: 0 <= i < |rows| && StooqRow(rows[i], iDate, iClose, lo, hi).Some? ==> i in idx
  {
    var keep := StooqKeep(iDate, iClose, lo, hi);
    idx := FilterMapOrigins(rows, keep);
    forall k | 0 <= k < |idx|
      ensures StooqRow(rows[idx[k]], iDate, iClose, lo, hi) == Some(StooqKept(rows, iDate, iClose, lo, hi)[k])
    {
      assert keep(rows[idx[k]]) == Some(FilterMap(rows, keep)[k]);
    }
    forall i | 0 <= i < |rows| && StooqRow(rows[i], iDate, iClose, lo, hi).Some? ensures i in idx {
      assert keep(rows[i]).Some?;
    }
  }

  /** The two bounds as day numbers, swapped when given in reverse order;
      None when `fromisoformat` rejects one of them. */
  function DayRange(start: string, end: string): (r: Option<(int, int)>)
    ensures r.Some? <==> IsoDay(start).Some? && IsoDay(end).Some?
    ensures r.Some? ==> r.value == (Min(IsoDay(start).value, IsoDay(end).value),
                                    Max(IsoDay(start).value, IsoDay(end).value))
  {
    match (IsoDay(start), IsoDay(end))
    case (Some(s), Some(e)) => if s > e then Some((e, s)) else Some((s, e))
    case _ => None
  }

  /** The data rows of a Stooq reply once its date and close columns are
      known: a range bound `fromisoformat` rejects raises; otherwise the
      closes dated inside the range, dated by the last of them. */
  function StooqSelect(body: seq<seq<string>>, iDate: nat, iClose: nat, range: Option<(int, int)>): (r: SourceOutcome)
    ensures WellFormed(r)
    ensures r.Raised? <==> range.None?
    ensures range.Some? ==>
              (r.NoCloses? <==> StooqKept(body, iDate, iClose, range.value.0, range.value.1) == [])
    ensures r.Closes? ==> range.Some? && var kept := StooqKept(body, iDate, iClose, range.value.0, range.value.1);
                          kept != [] && r.values == Values(kept) && r.lastDate == kept[|kept| - 1].date
    ensures r.Closes? ==> range.Some? && InDayRange(r.lastDate, range.value.0, range.value.1)
  {
    match range
    case None => Raised
    case Some((lo, hi)) =>
      var kept := StooqKept(body, iDate, iClose, lo, hi);
      if |kept| == 0 then NoCloses else Closes(Values(kept), kept[|kept| - 1].date)
  }

  /** A Stooq reply body: the CSV reader raises on a bare carriage return;
      at most one CSV row after stripping, or a header without exact `date`
      and `close` cells, gives nothing. */
  function StooqText(text: string, range: Option<(int, int)>): (r: SourceOutcome)
    ensures WellFormed(r)
    ensures PyCsvRaises(Strip(text)) ==> r == Raised
    ensures var rows := PyCsvRows(Strip(text));
            var header := if |rows| > 0 then NormalizeHeader(Py, rows[0]) else [];
            !PyCsvRaises(Strip(text)) ==>
              && (|rows| <= 1 || "date" !in header || "close" !in header ==> r == NoCloses)
              && (|rows| > 1 && "date" in header && "close" in header ==>
                    r == StooqSelect(rows[1..], IndexOf(header, "date").value, IndexOf(header, "close").value, range))
    ensures r.Raised? ==> range.None? || PyCsvRaises(Strip(text))
    ensures r.Closes? ==> range.Some? && InDayRange(r.lastDate, range.value.0, range.value.1)
  {
    var rows := PyCsvRows(Strip(text));
    if PyCsvRaises(Strip(text)) then Raised
    else if |rows| <= 1 then NoCloses
    else
      var header := NormalizeHeader(Py, rows[0]);
      match (IndexOf(header, "date"), IndexOf(header, "close"))
      case (Some(iDate), Some(iClose)) => StooqSelect(rows[1..], iDate, iClose, range)
      case _ => NoCloses
  }

  /** `_stooq_fetch`: a request that raises propagates, a status other than
      200 gives nothing, and a body is read against the range, whose bounds
      may come in either order. */
  function StooqFetch(resp: Response<string>, start: string, end: string): (r: SourceOutcome)
    ensures WellFormed(r)
    ensures resp.Failed? ==> r == Raised
    ensures resp.NotOk? ==> r == NoCloses
    ensures resp.Body? ==> r == StooqText(resp.body, DayRange(start, end))
    ensures r.Raised? ==> resp.Failed? || DayRange(start, end).None? || PyCsvRaises(Strip(resp.body))
    ensures r.Closes? ==>
              DayRange(start, end).Some? &&
              InDayRange(r.lastDate, DayRange(start, end).value.0, DayRange(start, end).value.1)
  {
    match resp
    case Failed => Raised
    case NotOk => NoCloses
    case Body(text) => StooqText(text, DayRange(start, end))
  }

  /** The order of the range bounds does not matter. */
  lemma StooqFetchSymmetric(resp: Response<string>, start: string, end: string)
    ensures StooqFetch(resp, start, end) == StooqFetch(resp, end, start)
  {
    var range := DayRange(start, end);
    assert range == DayRange(end, start);
    if resp.Body? {
      assert StooqFetch(resp, start, end) == StooqText(resp.body, range);
    }
  }

  /** What the cascade found: a source raised before any gave closes, none
      gave any, or the first that did, by position. */
  datatype Cascade = CascadeRaised | AllEmpty | Found(index: nat, values: seq<real>, lastDate: string)

  /** The sources are tried in order while they give nothing; the first
      one that raises or gives closes decides. */
  function ServerCascade(os: seq<SourceOutcome>): (r: Cascade)
    ensures r.AllEmpty? <==> forall i :: 0 <= i < |os| ==> os[i] == NoCloses
    ensures r.Found? ==> r.index < |os| && os[r.index] == Closes(r.values, r.lastDate) &&
                         forall i :: 0 <= i < r.index ==> os[i] == NoCloses
    ensures r.CascadeRaised? ==> exists i :: 0 <= i < |os| && os[i] == Raised &&
                                   forall j :: 0 <= j < i ==> os[j] == NoCloses
    decreases |os|
  {
    if |os| == 0 then AllEmpty
    else
      match os[0]
      case Raised => CascadeRaised
      case Closes(v, d) => Found(0, v, d)
      case NoCloses =>
        match ServerCascade(os[1..])
        case Found(i, v, d) => Found(i + 1, v, d)
        case other => other
  }

  /** The first source that gives closes decides, when none before it
      raised. */
  lemma {:induction false} CascadeFindsFirst(os: seq<SourceOutcome>, i: nat)
    requires i < |os| && os[i].Closes? && forall j :: 0 <= j < i ==> os[j] == NoCloses
    ensures ServerCascade(os) == Found(i, os[i].values, os[i].lastDate)
    decreases i
  {
    if i > 0 {
      assert os[0] == NoCloses;
      forall j | 0 <= j < i - 1 ensures os[1..][j] == NoCloses {
        assert os[1..][j] == os[j + 1];
      }
      CascadeFindsFirst(os[1..], i - 1);
    }
  }

  /** The first source that raises ends the cascade, when none before it
      gave closes. */
  lemma {:induction false} CascadeStopsAtRaise(os: seq<SourceOutcome>, i: nat)
    requires i < |os| && os[i] == Raised && forall j :: 0 <= j < i ==> os[j] == NoCloses
    ensures ServerCascade(os) == CascadeRaised
    decreases i
  {
    if i > 0 {
      assert os[0] == NoCloses;
      forall j | 0 <= j < i - 1 ensures os[1..][j] == NoCloses {
        assert os[1..][j] == os[j + 1];
      }
      CascadeStopsAtRaise(os[1..], i - 1);
    }
  }

  /** The four sources in the order `/predict` consults them: yfinance, the
      chart API, then Stooq under the lower-cased symbol and under the
      symbol with `.us` appended. */
  function SourceOutcomes(ticker: string, start: string, end: string, yf: Option<seq<Point>>,
                          chart: Response<ChartReply>, stooq: string -> Response<string>): (r: seq<SourceOutcome>)
    ensures |r| == |SourceLabels|
    ensures forall i :: 0 <= i < |r| ==> WellFormed(r[i])
    ensures !r[0].Raised? && !r[1].Raised?
  {
    [YfSource(yf), ChartSource(start, end, chart),
     StooqSource(stooq(Lower(ticker)), start, end),
     StooqSource(stooq(Lower(ticker) + ".us"), start, end)]
  }

  /** `YfOutcome`, as one entry of the cascade. */
  function YfSource(yf: Option<seq<Point>>): (r: SourceOutcome)
    ensures WellFormed(r) && !r.Raised?
  {
    YfOutcome(yf)
  }

  /** `ChartOutcome`, as one entry of the cascade. */
  function ChartSource(start: string, end: string, chart: Response<ChartReply>): (r: SourceOutcome)
    ensures WellFormed(r) && !r.Raised?
  {
    ChartOutcome(start, end, chart)
  }

  /** `StooqFetch`, as one entry of the cascade. */
  function StooqSource(resp: Response<string>, start: string, end: string): (r: SourceOutcome)
    ensures WellFormed(r)
  {
    StooqFetch(resp, start, end)
  }

  /** The reply of `/predict`: `{"error": "no_data"}` or a prediction with
      its symbol, date, source label and number of closes used. */
  datatype Reply = NoData | Predicted(prediction: Prediction, symbol: string, date: string, source: string, points: int)

  /** The reply of the endpoint's outer `except`. */
  function Fallback(ticker: string, end: string): Reply
  {
    Predicted(NoSignal, Upper(ticker), end, "", 0)
  }

  /** `/predict` once the sources have answered: no closes anywhere is
      `no_data`; the first source with closes supplies at most its latest
      500 to the model; a source that raises first, or a heuristic that
      divides by zero, ends in the fixed fallback reply. */
  function PredictFromOutcomes(ticker: string, end: string, os: seq<SourceOutcome>, model: LoadedModel,
                               circuit: seq<real> -> Option<real>, network: seq<real> -> Option<real>): (r: Reply)
    requires |os| == |SourceLabels| && forall i :: 0 <= i < |os| ==> WellFormed(os[i])
    ensures r.NoData? <==> forall i :: 0 <= i < |os| ==> os[i] == NoCloses
    ensures ServerCascade(os).CascadeRaised? ==> r == Fallback(ticker, end)
    ensures r.Predicted? ==> r.symbol == Upper(ticker) && 0 <= r.points <= ServerPoints
    ensures r.Predicted? && r.points == 0 ==> r == Fallback(ticker, end)
    ensures r.Predicted? && r.points > 0 ==> r.source in SourceLabels && (end != "" ==> r.date != "")
  {
    match ServerCascade(os)
    case AllEmpty => NoData
    case CascadeRaised => Fallback(ticker, end)
    case Found(i, values, lastDate) =>
      assert WellFormed(os[i]);
      var closes := TakeLast(values, ServerPoints);
      match InferFromCloses(model, circuit, network, closes)
      case Err(_) => Fallback(ticker, end)
      case Ok(p) => Predicted(p, Upper(ticker), OrElse(lastDate, end), SourceLabels[i], |closes|)
  }

  /** `/predict`: empty bounds default to today and a year earlier, and the
      defaulted bounds are the ones every source and the replies use. */
  function PredictEndpoint(ticker: string, start: string, end: string, today: string, yearAgo: string,
                           yf: Option<seq<Point>>, chart: Response<ChartReply>, stooq: string -> Response<string>,
                           model: LoadedModel, circuit: seq<real> -> Option<real>,
                           network: seq<real> -> Option<real>): (r: Reply)
    ensures r.Predicted? ==> r.symbol == Upper(ticker) && 0 <= r.points <= ServerPoints
    ensures r.Predicted? && r.points == 0 ==> r == Fallback(ticker, OrElse(end, today))
  {
    var e := OrElse(end, today);
    PredictFromOutcomes(ticker, e, SourceOutcomes(ticker, OrElse(start, yearAgo), e, yf, chart, stooq),
                        model, circuit, network)
  }

  /** When the source at position `i` is the first with closes, the reply is
      the model's prediction on its latest 500 closes (or the fallback when
      the heuristic divides by zero), labelled with that source. */
  lemma PredictUsesFirstSource(ticker: string, end: string, os: seq<SourceOutcome>, model: LoadedModel,
                               circuit: seq<real> -> Option<real>, network: seq<real> -> Option<real>, i: nat)
    requires |os| == |SourceLabels| && forall j :: 0 <= j < |os| ==> WellFormed(os[j])
    requires i < |os| && os[i].Closes? && forall j :: 0 <= j < i ==> os[j] == NoCloses
    ensures var r := PredictFromOutcomes(ticker, end, os, model, circuit, network);
            var inferred := InferFromCloses(model, circuit, network, TakeLast(os[i].values, ServerPoints));
            (inferred.Ok? ==> r == Predicted(inferred.value, Upper(ticker), OrElse(os[i].lastDate, end),
                                             SourceLabels[i], Min(|os[i].values|, ServerPoints))) &&
            (inferred.Err? ==> r == Fallback(ticker, end))
  {
    CascadeFindsFirst(os, i);
  }

  /** A Stooq request that raises for the plain symbol, or whose body the
      CSV reader raises on, ends `/predict` in the fallback reply when yfinance and the chart API gave nothing: the
      `.us` symbol is not tried, and the reply is not `no_data`. */
  lemma StooqRaiseSkipsSecondSymbol(ticker: string, start: string, end: string, today: string, yearAgo: string,
                                    yf: Option<seq<Point>>, chart: Response<ChartReply>,
                                    stooq: string -> Response<string>, model: LoadedModel,
                                    circuit: seq<real> -> Option<real>, network: seq<real> -> Option<real>)
    requires YfOutcome(yf) == NoCloses
    requires ChartOutcome(OrElse(start, yearAgo), OrElse(end, today), chart) == NoCloses
    requires var resp := stooq(Lower(ticker));
             resp.Failed? || (resp.Body? && PyCsvRaises(Strip(resp.body)))
    ensures PredictEndpoint(ticker, start, end, today, yearAgo, yf, chart, stooq, model, circuit, network)
            == Fallback(ticker, OrElse(end, today))
  {
    var s, e := OrElse(start, yearAgo), OrElse(end, today);
    var os := SourceOutcomes(ticker, s, e, yf, chart, stooq);
    assert os[0] == YfSource(yf) == NoCloses && os[1] == ChartSource(s, e, chart) == NoCloses;
    assert os[2] == StooqSource(stooq(Lower(ticker)), s, e) == Raised;
    CascadeStopsAtRaise(os, 2);
  }

  /** The reply of `/predict-file`: `no_close_column`, `no_data`, an
      uncaught exception (HTTP 500), or a prediction under the file name. */
  datatype FileReply = NoCloseColumn | FileNoData | FileFailed | FilePredicted(prediction: Prediction, symbol: string)

  /** The close column of an upload: an exact `close` header cell first, an
      exact `adj close` one otherwise. */
  function FileColumn(header: seq<string>): (r: Option<nat>)
    ensures r.None? <==> "close" !in header && "adj close" !in header
    ensures "close" in header ==> r.Some? && r.value < |header| && header[r.value] == "close"
    ensures "close" !in header && "adj close" in header ==>
              r.Some? && r.value < |header| && header[r.value] == "adj close"
  {
    match IndexOf(header, "close")
    case Some(i) => Some(i)
    case None => IndexOf(header, "adj close")
  }

  /** The cell of the close column of one data row as a float, if any. */
  function FileCell(idx: nat): seq<string> -> Option<real>
  {
    (row: seq<string>) => match Cell(row, idx)
                          case Some(c) => PyFloat(c)
                          case None => None
  }

  /** The upload's header row, normalised; none for an empty file. */
  function FileHeader(rows: seq<seq<string>>): (r: seq<string>)
    ensures |rows| == 0 ==> r == []
  {
    if |rows| > 0 then NormalizeHeader(Py, rows[0]) else []
  }

  /** The closes of an upload's close column, or None when the header has
      no close column. A short row or a cell `float` rejects is skipped. */
  function UploadCloses(rows: seq<seq<string>>): (r: Option<seq<real>>)
    ensures r.None? <==> "close" !in FileHeader(rows) && "adj close" !in FileHeader(rows)
    ensures r.Some? ==> |rows| > 0 && |r.value| < |rows|
    ensures r.Some? ==> r.value == FilterMap(rows[1..], FileCell(FileColumn(FileHeader(rows)).value))
  {
    match FileColumn(FileHeader(rows))
    case None => None
    case Some(idx) => Some(FilterMap(rows[1..], FileCell(idx)))
  }

  /** `/predict-file`: all the parsed closes of the column go to the model,
      with no cut to the latest 500; none is `no_data`; the CSV reader's
      error and the heuristic's division by zero are not caught. */
  function PredictFile(filename: string, content: string, model: LoadedModel,
                       circuit: seq<real> -> Option<real>, network: seq<real> -> Option<real>): (r: FileReply)
    ensures PyCsvRaises(content) ==> r == FileFailed
    ensures var closes := UploadCloses(PyCsvRows(content));
            !PyCsvRaises(content) ==>
              && (r.NoCloseColumn? <==> closes.None?)
              && (r.FileNoData? <==> closes == Some([]))
              && (r.FileFailed? ==> closes.Some? && |closes.value| >= SmaPeriod && PyHeuristic(closes.value).Err?)
              && (r.FileFailed? <==> closes.Some? && closes.value != [] &&
                                     InferFromCloses(model, circuit, network, closes.value).Err?)
    ensures var closes := UploadCloses(PyCsvRows(content));
            r.FilePredicted? ==> && !PyCsvRaises(content) && r.symbol == filename && closes.Some?
                                 && |closes.value| > 0
                                 && Ok(r.prediction) == InferFromCloses(model, circuit, network, closes.value)
  {
    if PyCsvRaises(content) then FileFailed
    else
      match UploadCloses(PyCsvRows(content))
      case None => NoCloseColumn
      case Some(closes) =>
        if |closes| == 0 then FileNoData
        else
          match InferFromCloses(model, circuit, network, closes)
          case Err(_) => FileFailed
          case Ok(p) => FilePredicted(p, filename)
  }

  /** Each close read from an upload is the float value of the chosen
      column's cell in a data row, in row order. */
  lemma FileClosesOrigins(rows: seq<seq<string>>, idx: nat) returns (at: seq<nat>)
    requires |rows| >= 1
    ensures var closes := FilterMap(rows[1..], FileCell(idx));
            |at| == |closes| &&
            (forall k :: 0 <= k < |at| ==>
               1 <= at[k] < |rows| && idx < |rows[at[k]]| && PyFloat(rows[at[k]][idx]) == Some(closes[k])) &&
            (forall k, l :: 0 <= k < l < |at| ==> at[k] < at[l])
    ensures forall i :: 1 <= i < |rows| && idx < |rows[i]| && PyFloat(rows[i][idx]).Some? ==> i in at
  {
    at := FilterMapOriginsAfterFirst(rows, FileCell(idx));
    var closes := FilterMap(rows[1..], FileCell(idx));
    forall k | 0 <= k < |at|
      ensures idx < |rows[at[k]]| && PyFloat(rows[at[k]][idx]) == Some(closes[k])
    {
      assert FileCell(idx)(rows[at[k]]) == Some(closes[k]);
    }
    forall i | 1 <= i < |rows| && idx < |rows[i]| && PyFloat(rows[i][idx]).Some? ensures i in at {
      assert FileCell(idx)(rows[i]).Some?;
    }
  }
}
