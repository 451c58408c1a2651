/** The server's `/ohlc` endpoint: daily bars from yfinance, then the Yahoo
    chart API, then Stooq under two symbols, narrowed to the requested range
    unless that leaves nothing. The remote replies are parameters. */
module Ohlc {
  import opened Wrappers
  import opened Seqs
  import opened Text
  import opened Numbers
  import opened Calendar
  import opened Feeds
  import opened Server

  /** One daily bar of the reply. */
  datatype Bar = Bar(time: string, open: real, high: real, low: real, close: real, volume: int)

  /** A row of the yfinance frame; None stands for NaN. */
  datatype FrameRow = FrameRow(date: string, open: Option<real>, high: Option<real>, low: Option<real>,
                               close: Option<real>, volume: Option<real>)

  /** The reply: `no_data`, `service_unavailable` (an exception reached the
      outer handler), or the bars. */
  datatype OhlcReply = OhlcNoData | Unavailable | Bars(rows: seq<Bar>)

  /** A frame row becomes a bar when its four prices are numbers; a NaN
      volume reads as 0 and a number is truncated to an integer. */
  function FrameBar(row: FrameRow): (r: Option<Bar>)
    ensures r.Some? <==> row.open.Some? && row.high.Some? && row.low.Some? && row.close.Some?
    ensures r.Some? ==> r.value.time == row.date && r.value.close == row.close.value
    ensures r.Some? ==> && r.value.open == row.open.value && r.value.high == row.high.value
                        && r.value.low == row.low.value
    ensures r.Some? && row.volume.None? ==> r.value.volume == 0
    ensures r.Some? && row.volume.Some? ==> r.value.volume == TruncToInt(row.volume.value)
    ensures r.Some? && row.volume.Some? && row.volume.value >= 0.0 ==>
              r.value.volume as real <= row.volume.value < r.value.volume as real + 1.0
  {
    match (row.open, row.high, row.low, row.close)
    case (Some(o), Some(h), Some(l), Some(c)) =>
      var v := match row.volume case Some(x) => TruncToInt(x) case None => 0;
      Some(Bar(row.date, o, h, l, c, v))
    case _ => None
  }

  /** The bars of a yfinance frame; a download that raised gives none. */
  function FrameBars(frame: Option<seq<FrameRow>>): (r: seq<Bar>)
    ensures frame.None? ==> r == []
    ensures frame.Some? ==> |r| <= |frame.value|
  {
    match frame
    case None => []
    case Some(rows) => FilterMap(rows, FrameBar)
  }

  /** Every frame row with four prices gives its bar, in row order, and
      nothing else does. */
  lemma FrameBarsOrigins(rows: seq<FrameRow>) returns (idx: seq<nat>)
    ensures |idx| == |FrameBars(Some(rows))|
    ensures forall k :: 0 <= k < |idx| ==> idx[k] < |rows| && FrameBar(rows[idx[k]]) == Some(FrameBars(Some(rows))[k])
    ensures forall k, l :: 0 <= k < l < |idx| ==> idx[k] < idx[l]
    ensures forall i :: 0 <= i < |rows| && FrameBar(rows[i]).Some? ==> i in idx
  {
    idx := FilterMapOrigins(rows, FrameBar);
  }

  /** Position `i` of a chart reply, below the shorter of the timestamp and
      close arrays: a shorter open, high, low or volume array skips it
      (`IndexError`), so does a `null` price; a `null` volume reads as 0. */
  function ChartBar(reply: ChartReply, i: nat): (r: Option<Bar>)
    requires i < |reply.dates| && i < |reply.closes|
    ensures r.Some? <==> && i < |reply.opens| && i < |reply.highs| && i < |reply.lows| && i < |reply.volumes|
                         && reply.opens[i].Some? && reply.highs[i].Some? && reply.lows[i].Some?
                         && reply.closes[i].Some?
    ensures r.Some? ==> && r.value.time == reply.dates[i] && Some(r.value.open) == reply.opens[i]
                        && Some(r.value.high) == reply.highs[i] && Some(r.value.low) == reply.lows[i]
                        && Some(r.value.close) == reply.closes[i]
    ensures r.Some? && reply.volumes[i].None? ==> r.value.volume == 0
    ensures r.Some? && reply.volumes[i].Some? ==> r.value.volume == TruncToInt(reply.volumes[i].value)
  {
    if i < |reply.opens| && i < |reply.highs| && i < |reply.lows| && i < |reply.volumes| then
      match (reply.opens[i], reply.highs[i], reply.lows[i], reply.closes[i])
      case (Some(o), Some(h), Some(l), Some(c)) =>
        var v := match reply.volumes[i] case Some(x) => TruncToInt(x) case None => 0;
        Some(Bar(reply.dates[i], o, h, l, c, v))
      case _ => None
    else None
  }

  /** `ChartBar` at every position below the shorter of the timestamp and
      close arrays. */
  function ChartSlots(reply: ChartReply): (r: seq<Option<Bar>>)
    ensures |r| == Min(|reply.dates|, |reply.closes|)
    ensures forall i :: 0 <= i < |r| ==> r[i] == ChartBar(reply, i)
  {
    var n := Min(|reply.dates|, |reply.closes|);
    seq(n, i requires 0 <= i < n => ChartBar(reply, i))
  }

  function Slot(b: Option<Bar>): Option<Bar>
  {
    b
  }

  /** The bars of a chart reply, in timestamp order. */
  function ChartBars(reply: ChartReply): (r: seq<Bar>)
    ensures |r| <= Min(|reply.dates|, |reply.closes|)
  {
    FilterMap(ChartSlots(reply), Slot)
  }

  /** Every position whose prices are all present gives its bar, in
      timestamp order, and nothing else does. */
  lemma ChartBarsOrigins(reply: ChartReply) returns (idx: seq<nat>)
    ensures |idx| == |ChartBars(reply)|
    ensures forall k :: 0 <= k < |idx| ==>
              idx[k] < Min(|reply.dates|, |reply.closes|) && ChartBar(reply, idx[k]) == Some(ChartBars(reply)[k])
    ensures forall k, l :: 0 <= k < l < |idx| ==> idx[k] < idx[l]
    ensures forall i :: 0 <= i < Min(|reply.dates|, |reply.closes|) && ChartBar(reply, i).Some? ==> i in idx
  {
    var slots := ChartSlots(reply);
    idx := FilterMapOrigins(slots, Slot);
    forall i | 0 <= i < Min(|reply.dates|, |reply.closes|) && ChartBar(reply, i).Some? ensures i in idx {
      assert Slot(slots[i]).Some?;
    }
  }

  /** The positions of the six exact header cells a Stooq OHLC file needs. */
  datatype BarColumns = BarColumns(date: nat, open: nat, high: nat, low: nat, close: nat, volume: nat)

  /** `i` is where Python's `header.index(key)` finds `key`: its first
      occurrence. */
  predicate FirstAt(header: seq<string>, key: string, i: nat)
  {
    i < |header| && header[i] == key && key !in header[..i]
  }

  function LocateBarColumns(header: seq<string>): (r: Option<BarColumns>)
    ensures r.Some? <==> "date" in header && "open" in header && "high" in header &&
                         "low" in header && "close" in header && "volume" in header
    ensures r.Some? ==> && FirstAt(header, "date", r.value.date) && FirstAt(header, "open", r.value.open)
                        && FirstAt(header, "high", r.value.high) && FirstAt(header, "low", r.value.low)
                        && FirstAt(header, "close", r.value.close) && FirstAt(header, "volume", r.value.volume)
  {
    match (IndexOf(header, "date"), IndexOf(header, "open"), IndexOf(header, "high"),
           IndexOf(header, "low"), IndexOf(header, "close"), IndexOf(header, "volume"))
    case (Some(d), Some(o), Some(h), Some(l), Some(c), Some(v)) => Some(BarColumns(d, o, h, l, c, v))
    case _ => None
  }

  /** A cell parsed by `float`, or None when it is missing or rejected. */
  function FloatCell(cols: seq<string>, i: nat): (r: Option<real>)
    ensures r.Some? ==> i < |cols| && PyFloat(cols[i]) == r
  {
    match Cell(cols, i)
    case Some(c) => PyFloat(c)
    case None => None
  }

  /** A Stooq data row: the raw date cell and four prices that `float`
      accepts; a missing volume cell reads as 0, a present one must parse and
      is truncated. Anything else skips the row. */
  function StooqBar(cols: seq<string>, c: BarColumns): (r: Option<Bar>)
    ensures r.Some? <==> && c.date < |cols| && FloatCell(cols, c.open).Some? && FloatCell(cols, c.high).Some?
                         && FloatCell(cols, c.low).Some? && FloatCell(cols, c.close).Some?
                         && (c.volume >= |cols| || PyFloat(cols[c.volume]).Some?)
    ensures r.Some? ==> && c.date < |cols| && r.value.time == cols[c.date]
                        && FloatCell(cols, c.open) == Some(r.value.open) && FloatCell(cols, c.high) == Some(r.value.high)
                        && FloatCell(cols, c.low) == Some(r.value.low) && FloatCell(cols, c.close) == Some(r.value.close)
    ensures r.Some? && c.volume >= |cols| ==> r.value.volume == 0
    ensures r.Some? && c.volume < |cols| ==> r.value.volume == TruncToInt(PyFloat(cols[c.volume]).value)
  {
    var volume := if c.volume < |cols| then (match PyFloat(cols[c.volume])
                                             case Some(x) => Some(TruncToInt(x))
                                             case None => None)
                  else Some(0);
    match (Cell(cols, c.date), FloatCell(cols, c.open), FloatCell(cols, c.high), FloatCell(cols, c.low),
           FloatCell(cols, c.close), volume)
    case (Some(d), Some(o), Some(h), Some(l), Some(cl), Some(v)) => Some(Bar(d, o, h, l, cl, v))
    case _ => None
  }

  function StooqBarReader(c: BarColumns): seq<string> -> Option<Bar>
  {
    (cols: seq<string>) => StooqBar(cols, c)
  }

  /** The header of a Stooq reply body, normalised; none for an empty one. */
  function StooqHeader(rows: seq<seq<string>>): (r: seq<string>)
    ensures rows == [] ==> r == []
  {
    if |rows| > 0 then NormalizeHeader(Py, rows[0]) else []
  }

  /** The bars of one Stooq reply body: None where the CSV reader raises,
      none when the header lacks one of the six columns. */
  function StooqBars(text: string): (r: Option<seq<Bar>>)
    ensures r.None? <==> PyCsvRaises(Strip(text))
    ensures text == [] ==> r == Some([])
    ensures !PyCsvRaises(Strip(text)) && LocateBarColumns(StooqHeader(PyCsvRows(Strip(text)))).None? ==>
              r == Some([])
  {
    var rows := PyCsvRows(Strip(text));
    EmptyCsv();
    if PyCsvRaises(Strip(text)) then None
    else
      match LocateBarColumns(StooqHeader(rows))
      case Some(c) => Some(FilterMap(rows[1..], StooqBarReader(c)))
      case None => Some([])
  }

  /** With the six columns located, every data row `StooqBar` accepts gives
      its bar, in row order, and nothing else does. */
  lemma StooqBarsOrigins(text: string, c: BarColumns) returns (idx: seq<nat>)
    requires !PyCsvRaises(Strip(text))
    requires LocateBarColumns(StooqHeader(PyCsvRows(Strip(text)))) == Some(c)
    ensures StooqBars(text).Some?
    ensures var rows := PyCsvRows(Strip(text));
            var bars := StooqBars(text).value;
            |idx| == |bars| &&
            (forall k :: 0 <= k < |idx| ==>
               1 <= idx[k] < |rows| && StooqBar(rows[idx[k]], c) == Some(bars[k])) &&
            (forall i :: 1 <= i < |rows| && StooqBar(rows[i], c).Some? ==> i in idx)
    ensures forall k, l :: 0 <= k < l < |idx| ==> idx[k] < idx[l]
  {
    var rows := PyCsvRows(Strip(text));
    assert rows != [];
    idx := FilterMapOriginsAfterFirst(rows, StooqBarReader(c));
    forall i | 1 <= i < |rows| && StooqBar(rows[i], c).Some? ensures i in idx {
      assert StooqBarReader(c)(rows[i]).Some?;
    }
  }

  /** The Stooq request raises, or the CSV reader raises on its body. */
  predicate StooqRaises(resp: Response<string>)
  {
    resp.Failed? || (resp.Body? && PyCsvRaises(Strip(resp.body)))
  }

  /** The bars of a Stooq reply; a request or a reading that raised has no
      bars to give and is reported as None. */
  function StooqReply(resp: Response<string>): (r: Option<seq<Bar>>)
    ensures r.None? <==> StooqRaises(resp)
    ensures resp.NotOk? ==> r == Some([])
    ensures resp.Body? ==> r == StooqBars(resp.body)
  {
    match resp
    case Failed => None
    case NotOk => Some([])
    case Body(text) => StooqBars(text)
  }

  /** Keeps a bar dated inside the day range. */
  function InRangeBar(lo: int, hi: int): Bar -> Option<Bar>
  {
    (b: Bar) => if InDayRange(b.time, lo, hi) then Some(b) else None
  }

  /** Every bar's time is a date `fromisoformat` accepts. */
  predicate AllDated(rows: seq<Bar>)
  {
    forall k :: 0 <= k < |rows| ==> IsoDay(rows[k].time).Some?
  }

  /** The bars inside the range, in either order of the bounds, or all of
      them when none is inside; None where `fromisoformat` raises, on a bound
      or on a bar's time. */
  function RangeOrAll(rows: seq<Bar>, start: string, end: string): (r: Option<seq<Bar>>)
    ensures r.None? <==> DayRange(start, end).None? || !AllDated(rows)
    ensures r.Some? ==> var inside := FilterMap(rows, InRangeBar(DayRange(start, end).value.0, DayRange(start, end).value.1));
                        r.value == if inside != [] then inside else rows
    ensures r.Some? ==> |r.value| <= |rows| && (rows != [] ==> r.value != []) && AllDated(r.value)
    ensures r.Some? && r.value != rows ==>
              forall k :: 0 <= k < |r.value| ==>
                InDayRange(r.value[k].time, DayRange(start, end).value.0, DayRange(start, end).value.1)
  {
    match DayRange(start, end)
    case None => None
    case Some((lo, hi)) =>
      if !AllDated(rows) then None
      else
        FilterMapAll(rows, InRangeBar(lo, hi), (b: Bar) => InDayRange(b.time, lo, hi));
        var inside := FilterMap(rows, InRangeBar(lo, hi));
        if |inside| > 0 then Some(inside) else Some(rows)
  }

  /** With a valid range and dated bars, the result is exactly the bars
      inside the range, in their order, when there is one; otherwise it is
      every bar. */
  lemma RangeOrAllOrigins(rows: seq<Bar>, start: string, end: string, lo: int, hi: int) returns (idx: seq<nat>)
    requires DayRange(start, end) == Some((lo, hi)) && AllDated(rows)
    ensures RangeOrAll(rows, start, end).Some?
    ensures var shown := RangeOrAll(rows, start, end).value;
            |idx| == |shown| &&
            forall k :: 0 <= k < |idx| ==> idx[k] < |rows| && rows[idx[k]] == shown[k]
    ensures forall k, l :: 0 <= k < l < |idx| ==> idx[k] < idx[l]
    ensures (exists j :: 0 <= j < |rows| && InDayRange(rows[j].time, lo, hi)) ==>
              forall i :: 0 <= i < |rows| ==> (i in idx <==> InDayRange(rows[i].time, lo, hi))
    ensures (forall i :: 0 <= i < |rows| ==> !InDayRange(rows[i].time, lo, hi)) ==>
              RangeOrAll(rows, start, end) == Some(rows)
  {
    var keep := InRangeBar(lo, hi);
    var inside := FilterMap(rows, keep);
    var origins := FilterMapOrigins(rows, keep);
    forall i | 0 <= i < |rows| && InDayRange(rows[i].time, lo, hi) ensures i in origins {
      assert keep(rows[i]).Some?;
    }
    if inside != [] {
      idx := origins;
      forall k | 0 <= k < |idx| ensures rows[idx[k]] == inside[k] && InDayRange(rows[idx[k]].time, lo, hi) {
        assert keep(rows[idx[k]]) == Some(inside[k]);
      }
      assert InDayRange(rows[idx[0]].time, lo, hi);
    } else {
      idx := seq(|rows|, i requires 0 <= i < |rows| => i);
      assert origins == [];
    }
  }

  /** The order of the range bounds does not matter. */
  lemma RangeOrAllSymmetric(rows: seq<Bar>, start: string, end: string)
    ensures RangeOrAll(rows, start, end) == RangeOrAll(rows, end, start)
  {
    assert DayRange(start, end) == DayRange(end, start);
  }

  /** Narrowing twice is narrowing once. */
  lemma RangeOrAllIdempotent(rows: seq<Bar>, start: string, end: string)
    requires DayRange(start, end).Some? && AllDated(rows)
    ensures RangeOrAll(rows, start, end).Some?
    ensures RangeOrAll(RangeOrAll(rows, start, end).value, start, end) == RangeOrAll(rows, start, end)
  {
    var (lo, hi) := DayRange(start, end).value;
    var inside := FilterMap(rows, InRangeBar(lo, hi));
    if |inside| > 0 {
      FilterMapAll(rows, InRangeBar(lo, hi), (b: Bar) => InDayRange(b.time, lo, hi));
      FilterMapKeepsAll(inside, InRangeBar(lo, hi));
    }
  }

  /** The bars of the first source that has any: yfinance, then (with both
      bounds accepted by `fromisoformat`) the chart API, then the Stooq stage.
      None where a bound is rejected or the chart request raises. */
  function OhlcSource(ticker: string, s: string, e: string, frame: Option<seq<FrameRow>>,
                      chart: Response<ChartReply>, stooq: string -> Response<string>): (r: Option<seq<Bar>>)
    ensures FrameBars(frame) != [] ==> r == Some(FrameBars(frame))
    ensures FrameBars(frame) == [] && (DayRange(s, e).None? || chart.Failed?) ==> r.None?
    ensures FrameBars(frame) == [] && DayRange(s, e).Some? && chart.Body? && ChartBars(chart.body) != [] ==>
              r == Some(ChartBars(chart.body))
    ensures FrameBars(frame) == [] && DayRange(s, e).Some? &&
            (chart.NotOk? || (chart.Body? && ChartBars(chart.body) == [])) ==>
              r == Stooq(stooq(Lower(ticker)), stooq(Lower(ticker) + ".us"))
  {
    var fromFrame := FrameBars(frame);
    if fromFrame != [] then Some(fromFrame)
    else if DayRange(s, e).None? then None
    else match chart
      case Failed => None
      case NotOk => Stooq(stooq(Lower(ticker)), stooq(Lower(ticker) + ".us"))
      case Body(reply) =>
        if ChartBars(reply) != [] then Some(ChartBars(reply)) else Stooq(stooq(Lower(ticker)), stooq(Lower(ticker) + ".us"))
  }

  /** `/ohlc`: empty bounds default to today and a year earlier; the first
      source with bars is narrowed to the range. A chart or Stooq request
      that raises, or a bound or bar time `fromisoformat` rejects, ends in
      `service_unavailable`. */
  function OhlcEndpoint(ticker: string, start: string, end: string, today: string, yearAgo: string,
                        frame: Option<seq<FrameRow>>, chart: Response<ChartReply>,
                        stooq: string -> Response<string>): (r: OhlcReply)
    ensures var s := OrElse(start, yearAgo);
            var e := OrElse(end, today);
            var found := OhlcSource(ticker, s, e, frame, chart, stooq);
            && (r.OhlcNoData? <==> found == Some([]))
            && (r.Unavailable? <==> found.None? || (found.value != [] && RangeOrAll(found.value, s, e).None?))
            && (r.Bars? ==> found.Some? && r.rows == RangeOrAll(found.value, s, e).value)
    ensures r.Bars? ==> r.rows != [] && AllDated(r.rows)
    ensures FrameBars(frame) != [] ==>
              (r.Bars? <==> RangeOrAll(FrameBars(frame), OrElse(start, yearAgo), OrElse(end, today)).Some?)
    ensures FrameBars(frame) == [] && DayRange(OrElse(start, yearAgo), OrElse(end, today)).None? ==> r == Unavailable
    ensures r.OhlcNoData? ==> FrameBars(frame) == [] && !chart.Failed? && !StooqRaises(stooq(Lower(ticker)))
  {
    var s := OrElse(start, yearAgo);
    var e := OrElse(end, today);
    match OhlcSource(ticker, s, e, frame, chart, stooq)
    case None => Unavailable
    case Some(rows) =>
      if rows == [] then OhlcNoData
      else
        match RangeOrAll(rows, s, e)
        case None => Unavailable
        case Some(shown) => Bars(shown)
  }

  /** The Stooq stage: the reply for the lower-cased symbol, then the one
      for the same with `.us` appended when the first gave no bars. */
  function Stooq(first: Response<string>, second: Response<string>): (r: Option<seq<Bar>>)
    ensures StooqRaises(first) ==> r.None?
    ensures r.None? ==> StooqRaises(first) || StooqRaises(second)
    ensures first.NotOk? ==> r == StooqReply(second)
    ensures StooqReply(first).Some? && StooqReply(first).value != [] ==> r == StooqReply(first)
    ensures StooqReply(first) == Some([]) ==> r == StooqReply(second)
  {
    match StooqReply(first)
    case None => None
    case Some(bars) => if bars != [] then Some(bars) else StooqReply(second)
  }

  /** Once yfinance has bars, the other sources are never consulted. */
  lemma FrameBarsDecide(ticker: string, start: string, end: string, today: string, yearAgo: string,
                        frame: Option<seq<FrameRow>>, chart1: Response<ChartReply>, chart2: Response<ChartReply>,
                        stooq1: string -> Response<string>, stooq2: string -> Response<string>)
    requires FrameBars(frame) != []
    ensures OhlcEndpoint(ticker, start, end, today, yearAgo, frame, chart1, stooq1)
            == OhlcEndpoint(ticker, start, end, today, yearAgo, frame, chart2, stooq2)
  {
  }

  /** A chart request that raises ends the endpoint even when Stooq has
      bars. */
  lemma ChartFailureHidesStooq(ticker: string, start: string, end: string, today: string, yearAgo: string,
                               frame: Option<seq<FrameRow>>, stooq: string -> Response<string>)
    requires FrameBars(frame) == []
    ensures OhlcEndpoint(ticker, start, end, today, yearAgo, frame, Failed, stooq) == Unavailable
  {
  }

  /** Once the plain symbol has Stooq bars, what the `.us` symbol would
      answer never reaches the endpoint. */
  lemma PlainStooqBarsHideUsSymbol(ticker: string, start: string, end: string, today: string, yearAgo: string,
                                   frame: Option<seq<FrameRow>>, chart: Response<ChartReply>,
                                   stooq1: string -> Response<string>, stooq2: string -> Response<string>)
    requires stooq1(Lower(ticker)) == stooq2(Lower(ticker))
    requires StooqReply(stooq1(Lower(ticker))).Some? && StooqReply(stooq1(Lower(ticker))).value != []
    ensures OhlcEndpoint(ticker, start, end, today, yearAgo, frame, chart, stooq1)
            == OhlcEndpoint(ticker, start, end, today, yearAgo, frame, chart, stooq2)
  {
    var sym := Lower(ticker);
    assert Stooq(stooq1(sym), stooq1(sym + ".us")) == Stooq(stooq2(sym), stooq2(sym + ".us"));
  }

  /** A Stooq body the CSV reader raises on ends the endpoint in
      `service_unavailable`, once yfinance and the chart API have no bars:
      the `.us` symbol is not tried. */
  lemma StooqCsvRaiseIsUnavailable(ticker: string, start: string, end: string, today: string, yearAgo: string,
                                   frame: Option<seq<FrameRow>>, stooq: string -> Response<string>)
    requires FrameBars(frame) == [] && DayRange(OrElse(start, yearAgo), OrElse(end, today)).Some?
    requires stooq(Lower(ticker)).Body? && PyCsvRaises(Strip(stooq(Lower(ticker)).body))
    ensures OhlcEndpoint(ticker, start, end, today, yearAgo, frame, NotOk, stooq) == Unavailable
  {
    assert StooqReply(stooq(Lower(ticker))).None?;
  }
}
