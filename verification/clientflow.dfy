/** The prediction page's own data path: the close-only readers of CSV and
    chart replies, the client-side cascade over three providers, and the
    fallbacks `handlePredict` takes when the prediction server does not
    answer with a prediction. */
module ClientFlow {
  import opened Wrappers
  import opened Seqs
  import opened Text
  import opened Numbers
  import opened Calendar
  import opened Charts
  import opened UserDates
  import opened Predictor
  import opened Ledger
  import opened Feeds
  import Server

  /** One close as the page's readers produce it. */
  datatype CloseRow = CloseRow(date: string, close: real)

  /** One data line of a close-only CSV: kept exactly when its trimmed date
      cell is non-empty and its close cell reads as a number. */
  function CloseLine(line: string, dateCol: int, closeCol: int): (r: Option<CloseRow>)
    ensures var cols := Split(line, ',');
            r.Some? <==> (&& Cell(cols, dateCol).Some? && Trim(Cell(cols, dateCol).value) != ""
                          && JsNumber(Cell(cols, closeCol)).Finite?)
    ensures var cols := Split(line, ',');
            r.Some? ==> r.value == CloseRow(Trim(Cell(cols, dateCol).value), JsNumber(Cell(cols, closeCol)).value)
  {
    var cols := Split(line, ',');
    var d := Cell(cols, dateCol);
    var c := JsNumber(Cell(cols, closeCol));
    if d.Some? && Trim(d.value) != "" && c.Finite? then Some(CloseRow(Trim(d.value), c.value)) else None
  }

  function CloseReader(dateCol: int, closeCol: int): string -> Option<CloseRow>
  {
    line => CloseLine(line, dateCol, closeCol)
  }

  /** The rows a close-only reader takes from the data lines of `text`. */
  function CloseRows(text: string, dateCol: int, closeCol: int): (r: seq<CloseRow>)
    ensures |r| < |JsLines(text)|
  {
    var lines := JsLines(text);
    FilterMap(lines[1..], CloseReader(dateCol, closeCol))
  }

  /** The rows come from data lines, never the header, in input order, and
      every data line the line reader keeps contributes its row. */
  lemma CloseRowsOrigins(text: string, dateCol: int, closeCol: int) returns (idx: seq<nat>)
    ensures var lines := JsLines(text);
            var r := CloseRows(text, dateCol, closeCol);
            && |idx| == |r| == CountKept(lines[1..], CloseReader(dateCol, closeCol))
            && (forall k :: 0 <= k < |idx| ==>
                  1 <= idx[k] < |lines| && CloseLine(lines[idx[k]], dateCol, closeCol) == Some(r[k]))
            && (forall k, l :: 0 <= k < l < |idx| ==> idx[k] < idx[l])
  {
    var lines := JsLines(text);
    idx := FilterMapOriginsAfterFirst(lines, CloseReader(dateCol, closeCol));
  }

  /** The comma-separated cells of the header line. */
  function HeaderCells(text: string): seq<string>
  {
    Split(JsLines(text)[0], ',')
  }

  /** The close reader of the upload fallback, of `fetchStooq` and (before
      its date filter) of `fetchStooqClient`. */
  function CsvCloses(text: string): seq<CloseRow>
  {
    var cells := HeaderCells(text);
    CloseRows(text, HeaderIndex(cells, "date"), HeaderIndex(cells, "close"))
  }

  /** `CsvCloses` reads the first header cell containing "date" and the
      first containing "close" (after trimming and lower-casing). */
  lemma CsvClosesColumns(text: string) returns (d: int, c: int)
    ensures FirstContaining(HeaderCells(text), "date", d)
    ensures FirstContaining(HeaderCells(text), "close", c)
    ensures CsvCloses(text) == CloseRows(text, d, c)
  {
    var cells := HeaderCells(text);
    HeaderLookup(cells, "date");
    HeaderLookup(cells, "close");
    d, c := HeaderIndex(cells, "date"), HeaderIndex(cells, "close");
  }

  /** The close column `fetchYahooCsvClient` reads: the "adj close" one
      when a header cell contains that text, the "close" one otherwise. */
  function YahooCloseColumn(cells: seq<string>): int
  {
    var adj := HeaderIndex(cells, "adj close");
    if adj >= 0 then adj else HeaderIndex(cells, "close")
  }

  /** `fetchYahooCsvClient`'s reader. */
  function YahooCsvCloses(text: string): seq<CloseRow>
  {
    var cells := HeaderCells(text);
    CloseRows(text, HeaderIndex(cells, "date"), YahooCloseColumn(cells))
  }

  lemma YahooCsvColumns(cells: seq<string>) returns (adj: int, c: int)
    ensures FirstContaining(cells, "adj close", adj)
    ensures adj >= 0 ==> c == adj
    ensures adj < 0 ==> FirstContaining(cells, "close", c)
    ensures YahooCloseColumn(cells) == c
  {
    HeaderLookup(cells, "adj close");
    HeaderLookup(cells, "close");
    adj := HeaderIndex(cells, "adj close");
    c := if adj >= 0 then adj else HeaderIndex(cells, "close");
  }

  /** A row whose date, read as a calendar day, lies within the range. */
  predicate InRange(row: CloseRow, range: DateRange)
  {
    JsIsoDay(row.date).Some? && range.start <= JsIsoDay(row.date).value <= range.end
  }

  /** The rows within the range, in their order. */
  function KeepInRange(rows: seq<CloseRow>, range: DateRange): (r: seq<CloseRow>)
    ensures |r| <= |rows|
    ensures forall x :: x in r <==> x in rows && InRange(x, range)
  {
    if |rows| == 0 then []
    else
      var rest := KeepInRange(rows[1..], range);
      assert forall x :: x in rows <==> x == rows[0] || x in rows[1..];
      if InRange(rows[0], range) then [rows[0]] + rest else rest
  }

  /** A row, kept when it lies within the range. */
  function RangeKeep(range: DateRange): CloseRow -> Option<CloseRow>
  {
    (row: CloseRow) => if InRange(row, range) then Some(row) else None
  }

  /** `KeepInRange` is the order-keeping filter: the same rows, the same
      number of times, in the same order. */
  lemma {:induction false} KeepInRangeIsFilter(rows: seq<CloseRow>, range: DateRange)
    ensures KeepInRange(rows, range) == FilterMap(rows, RangeKeep(range))
    decreases |rows|
  {
    if |rows| > 0 {
      KeepInRangeIsFilter(rows[1..], range);
    }
  }

  /** The kept rows are exactly the rows within the range, taken in input
      order: each comes from its own position, and every position within the
      range contributes. */
  lemma KeepInRangeOrigins(rows: seq<CloseRow>, range: DateRange) returns (idx: seq<nat>)
    ensures var r := KeepInRange(rows, range);
            |idx| == |r| && forall k :: 0 <= k < |idx| ==> idx[k] < |rows| && rows[idx[k]] == r[k]
    ensures forall k, l :: 0 <= k < l < |idx| ==> idx[k] < idx[l]
    ensures forall i :: 0 <= i < |rows| ==> (i in idx <==> InRange(rows[i], range))
  {
    KeepInRangeIsFilter(rows, range);
    var keep := RangeKeep(range);
    idx := FilterMapOrigins(rows, keep);
    forall k | 0 <= k < |idx| ensures rows[idx[k]] == KeepInRange(rows, range)[k] && InRange(rows[idx[k]], range) {
      assert keep(rows[idx[k]]) == Some(FilterMap(rows, keep)[k]);
    }
    forall i | 0 <= i < |rows| ensures i in idx <==> InRange(rows[i], range) {
      if InRange(rows[i], range) {
        assert keep(rows[i]).Some?;
      }
      if i in idx {
        var k :| 0 <= k < |idx| && idx[k] == i;
        assert InRange(rows[idx[k]], range);
      }
    }
  }

  /** `fetchStooqClient` given a body: the readable rows dated within
      [start, end], both ends included, in file order. */
  function StooqClientCloses(text: string, range: DateRange): (r: seq<CloseRow>)
    ensures forall x :: x in r <==> x in CsvCloses(text) && InRange(x, range)
    ensures r == FilterMap(CsvCloses(text), RangeKeep(range))
  {
    KeepInRangeIsFilter(CsvCloses(text), range);
    KeepInRange(CsvCloses(text), range)
  }

  /** What one provider of the page's cascade yields: it threw, or rows. */
  datatype Outcome = Threw | Rows(rows: seq<CloseRow>)

  /** A chart close as the page uses it: `null` passes the `isNaN` test and
      then counts as 0 in arithmetic. */
  function NullAsZero(c: Option<real>): real
  {
    match c
    case Some(v) => v
    case None => 0.0
  }

  /** The chart reader of `fetchYahoo`: one row per timestamp that has a
      close entry, `null` closes kept as 0; timestamps past the close array
      are dropped. */
  function ChartCloses(reply: ChartReply): (r: seq<CloseRow>)
    ensures |r| == Min(|reply.dates|, |reply.closes|)
    ensures forall i :: 0 <= i < |r| ==> r[i].date == reply.dates[i]
    ensures forall i :: 0 <= i < |r| ==> reply.closes[i].Some? ==> r[i].close == reply.closes[i].value
    ensures forall i :: 0 <= i < |r| ==> reply.closes[i].None? ==> r[i].close == 0.0
  {
    var n := Min(|reply.dates|, |reply.closes|);
    seq(n, i requires 0 <= i < n => CloseRow(reply.dates[i], NullAsZero(reply.closes[i])))
  }

  /** `fetchYahoo`: a failed first request throws; an empty first answer
      leads to the one-year request, whose failed status gives no rows. */
  function FetchYahoo(first: Response<ChartReply>, second: Response<ChartReply>): (r: Outcome)
    ensures r.Threw? <==> (!first.Body? || (|ChartCloses(first.body)| == 0 && second.Failed?))
    ensures first.Body? && |ChartCloses(first.body)| > 0 ==> r == Rows(ChartCloses(first.body))
    ensures first.Body? && |ChartCloses(first.body)| == 0 && second.Body? ==> r == Rows(ChartCloses(second.body))
    ensures first.Body? && |ChartCloses(first.body)| == 0 && second.NotOk? ==> r == Rows([])
  {
    match first
    case Body(a) =>
      if |ChartCloses(a)| > 0 then Rows(ChartCloses(a))
      else
        (match second
         case Failed => Threw
         case NotOk => Rows([])
         case Body(b) => Rows(ChartCloses(b)))
    case _ => Threw
  }

  /** `fetchStooqClient`: a failed request throws. */
  function FetchStooqClient(resp: Response<string>, range: DateRange): (r: Outcome)
    ensures r.Threw? <==> !resp.Body?
    ensures resp.Body? ==> r == Rows(StooqClientCloses(resp.body, range))
    ensures r.Rows? ==> forall x :: x in r.rows ==> InRange(x, range)
  {
    match resp
    case Body(text) => Rows(StooqClientCloses(text, range))
    case _ => Threw
  }

  /** `fetchYahooCsvClient`: a failed request throws. */
  function FetchYahooCsv(resp: Response<string>): (r: Outcome)
    ensures r.Threw? <==> !resp.Body?
    ensures r.Rows? ==> r.rows == YahooCsvCloses(resp.body)
  {
    match resp
    case Body(text) => Rows(YahooCsvCloses(text))
    case _ => Threw
  }

  /** What the page's three providers get back: the chart API's request
      and its one-year retry, the Stooq download and the Yahoo CSV
      download. */
  datatype ProviderReplies = ProviderReplies(chart: Response<ChartReply>, chartYear: Response<ChartReply>,
                                             stooq: Response<string>, csv: Response<string>)

  /** None of the three providers throws: the chart request and both
      downloads answer with an OK status, and the chart's one-year retry,
      when it is made, gets a reply. */
  predicate NoProviderThrows(p: ProviderReplies)
  {
    && p.chart.Body? && (|ChartCloses(p.chart.body)| > 0 || !p.chartYear.Failed?)
    && p.stooq.Body? && p.csv.Body?
  }

  /** The providers of the `catch` branch in the order the page asks them:
      `fetchYahoo`, `fetchStooqClient` over the normalised range, then
      `fetchYahooCsvClient`. */
  function ClientOutcomes(p: ProviderReplies, range: DateRange): (r: seq<Outcome>)
    ensures |r| == 3
    ensures r[0] == FetchYahoo(p.chart, p.chartYear) && r[1] == FetchStooqClient(p.stooq, range)
            && r[2] == FetchYahooCsv(p.csv)
  {
    [FetchYahoo(p.chart, p.chartYear), FetchStooqClient(p.stooq, range), FetchYahooCsv(p.csv)]
  }

  /** The page's providers all answer with rows exactly when none of them
      throws. */
  lemma ClientOutcomesThrow(p: ProviderReplies, range: DateRange)
    ensures var os := ClientOutcomes(p, range);
            (forall j :: 0 <= j < |os| ==> os[j].Rows?) <==> NoProviderThrows(p)
  {
    var os := ClientOutcomes(p, range);
    if NoProviderThrows(p) {
      ProvidersAnswer(p, range);
    } else {
      assert !os[0].Rows? || !os[1].Rows? || !os[2].Rows? by { SomeProviderThrows(p, range); }
    }
  }

  lemma ProvidersAnswer(p: ProviderReplies, range: DateRange)
    requires NoProviderThrows(p)
    ensures forall j :: 0 <= j < |ClientOutcomes(p, range)| ==> ClientOutcomes(p, range)[j].Rows?
  {
    var os := ClientOutcomes(p, range);
    forall j | 0 <= j < |os|
      ensures os[j].Rows?
    {
      if j == 0 {
        ChartAnswers(p.chart, p.chartYear);
      } else if j == 1 {
        assert os[1] == FetchStooqClient(p.stooq, range);
      } else {
        assert j == 2 && os[2] == FetchYahooCsv(p.csv);
        assert os[2].Rows?;
      }
    }
  }

  lemma ChartAnswers(first: Response<ChartReply>, second: Response<ChartReply>)
    requires first.Body? && (|ChartCloses(first.body)| > 0 || !second.Failed?)
    ensures FetchYahoo(first, second).Rows?
  {
  }

  lemma SomeProviderThrows(p: ProviderReplies, range: DateRange)
    requires !NoProviderThrows(p)
    ensures var os := ClientOutcomes(p, range); !os[0].Rows? || !os[1].Rows? || !os[2].Rows?
  {
  }

  predicate Empty(o: Outcome) { o == Rows([]) }

  /** The page's cascade (chart, Stooq, Yahoo CSV, in that order): the
      first non-empty answer wins; an empty answer moves on; a provider that
      throws ends the cascade with its error; all empty is `no_data`. */
  function ClientCascade(outcomes: seq<Outcome>): (r: Result<seq<CloseRow>, string>)
    ensures r.Ok? ==> |r.value| > 0 && exists i :: && 0 <= i < |outcomes| && outcomes[i] == Rows(r.value)
                                                   && forall j :: 0 <= j < i ==> Empty(outcomes[j])
    ensures r == Err("no_data") <==> forall j :: 0 <= j < |outcomes| ==> Empty(outcomes[j])
    ensures r == Err("fetch_failed") <==> exists i :: && 0 <= i < |outcomes| && outcomes[i].Threw?
                                                      && forall j :: 0 <= j < i ==> Empty(outcomes[j])
  {
    if |outcomes| == 0 then Err("no_data")
    else
      var rest := ClientCascade(outcomes[1..]);
      assert forall j :: 1 <= j < |outcomes| ==> outcomes[1..][j - 1] == outcomes[j];
      match outcomes[0]
      case Threw => Err("fetch_failed")
      case Rows(rows) =>
        if |rows| > 0 then Ok(rows)
        else
          (if rest.Ok? then
             var i :| && 0 <= i < |outcomes[1..]| && outcomes[1..][i] == Rows(rest.value)
                      && forall j :: 0 <= j < i ==> Empty(outcomes[1..][j]);
             assert outcomes[i + 1] == Rows(rest.value);
             rest
           else rest)
  }

  /** The intended cascade: a provider that throws is passed over like an
      empty one, so the request fails only when no provider has rows. */
  function IntendedCascade(outcomes: seq<Outcome>): (r: Result<seq<CloseRow>, string>)
    ensures r.Ok? ==> |r.value| > 0 && exists i :: && 0 <= i < |outcomes| && outcomes[i] == Rows(r.value)
                                                   && forall j :: 0 <= j < i ==> !HasRows(outcomes[j])
    ensures r.Err? <==> forall j :: 0 <= j < |outcomes| ==> !HasRows(outcomes[j])
    ensures r.Err? ==> r.error == "no_data"
  {
    if |outcomes| == 0 then Err("no_data")
    else
      var rest := IntendedCascade(outcomes[1..]);
      assert forall j :: 1 <= j < |outcomes| ==> outcomes[1..][j - 1] == outcomes[j];
      if HasRows(outcomes[0]) then Ok(outcomes[0].rows)
      else if rest.Ok? then
        var i :| && 0 <= i < |outcomes[1..]| && outcomes[1..][i] == Rows(rest.value)
                 && forall j :: 0 <= j < i ==> !HasRows(outcomes[1..][j]);
        assert outcomes[i + 1] == Rows(rest.value);
        rest
      else rest
  }

  predicate HasRows(o: Outcome) { o.Rows? && |o.rows| > 0 }

  /** Where no provider throws, the two cascades agree. */
  lemma CascadesAgreeWithoutThrows(outcomes: seq<Outcome>)
    requires forall j :: 0 <= j < |outcomes| ==> outcomes[j].Rows?
    ensures ClientCascade(outcomes) == IntendedCascade(outcomes)
  {
    if |outcomes| > 0 {
      CascadesAgreeWithoutThrows(outcomes[1..]);
    }
  }

  /** A chart request that fails hides the Stooq rows behind it: the
      page's cascade ends in `fetch_failed`, where the intended one takes
      the Stooq rows whenever some lie in the range. */
  lemma ThrowingProviderStopsCascade(p: ProviderReplies, range: DateRange)
    requires !p.chart.Body? && p.stooq.Body?
    ensures ClientCascade(ClientOutcomes(p, range)) == Err("fetch_failed")
    ensures StooqClientCloses(p.stooq.body, range) != [] ==>
              IntendedCascade(ClientOutcomes(p, range)) == Ok(StooqClientCloses(p.stooq.body, range))
  {
    var os := ClientOutcomes(p, range);
    assert os[0] == Threw && !HasRows(os[0]);
    if StooqClientCloses(p.stooq.body, range) != [] {
      assert os[1] == Rows(StooqClientCloses(p.stooq.body, range)) && HasRows(os[1]);
      var rest := IntendedCascade(os[1..]);
      assert os[1..][0] == os[1];
    }
  }

  /** `(ticker === "__custom__" ? customSymbol : ticker).trim() || "AAPL"`. */
  function ResolveTicker(selected: string, custom: string): (r: string)
    ensures r != ""
    ensures var chosen := if selected == "__custom__" then custom else selected;
            r == if Trim(chosen) == "" then "AAPL" else Trim(chosen)
  {
    var chosen := if selected == "__custom__" then custom else selected;
    if Trim(chosen) == "" then "AAPL" else Trim(chosen)
  }

  /** Most closes the page's heuristic looks at. */
  const ClientPoints: nat := 500

  function ClosesOf(rows: seq<CloseRow>): (r: seq<real>)
    ensures |r| == |rows|
    ensures forall i :: 0 <= i < |rows| ==> r[i] == rows[i].close
  {
    seq(|rows|, i requires 0 <= i < |rows| => rows[i].close)
  }

  /** The metadata line under a shown prediction. */
  datatype ResultMeta = ResultMeta(symbol: string, date: string, source: string, points: Option<int>)

  /** What the page ends with: a prediction shown, with its metadata when
      the page sets it, and the record added to the ledger; or an error toast. */
  datatype PageOutcome = Shown(prediction: Prediction, meta: Option<ResultMeta>, record: Record) | ErrorToast

  /** The prediction from client-side rows: the heuristic over the last 500
      closes, dated by the last row. */
  function PredictFromRows(rows: seq<CloseRow>, symbol: string, source: string,
                           date: string, id: string): (r: PageOutcome)
    requires |rows| > 0
    ensures r.Shown? && r.prediction == FastPredict(TakeLast(ClosesOf(rows), ClientPoints))
    ensures r.meta == Some(ResultMeta(symbol, date, source, Some(|rows|)))
    ensures r.record == Record(id, symbol, date, r.prediction.direction, r.prediction.confidence)
  {
    var p := FastPredict(TakeLast(ClosesOf(rows), ClientPoints));
    Shown(p, Some(ResultMeta(symbol, date, source, Some(|rows|))), Record(id, symbol, date, p.direction, p.confidence))
  }

  /** Only the last 500 closes reach the heuristic: earlier ones never
      change the page's prediction. */
  lemma OnlyLastPointsMatter(rows: seq<CloseRow>, older: seq<CloseRow>)
    requires |rows| >= ClientPoints
    ensures TakeLast(ClosesOf(older + rows), ClientPoints) == TakeLast(ClosesOf(rows), ClientPoints)
  {
    var a := ClosesOf(older + rows);
    var b := ClosesOf(rows);
    assert forall i :: 0 <= i < |b| ==> a[|older| + i] == b[i];
  }

  /** `catch` branch for an uploaded file: the page reads the file itself. */
  function FileFallback(name: string, text: string, today: string, id: string): (r: PageOutcome)
    ensures r.ErrorToast? <==> |CsvCloses(text)| == 0
    ensures r.Shown? ==> r == PredictFromRows(CsvCloses(text), name, "upload", today, id)
  {
    var rows := CsvCloses(text);
    if |rows| == 0 then ErrorToast else PredictFromRows(rows, name, "upload", today, id)
  }

  /** The server's answer as the page sees it: no answer (the request or
      its JSON failed), a reply with an `error`, or a prediction. */
  datatype ServerReply = Unreachable | ErrorReply | Answer(prediction: Prediction, symbol: string, date: string,
                                                            source: string, points: Option<int>)

  /** A server prediction as the `catch` branch shows and records it. */
  function ShowAnswer(reply: ServerReply, tk: string, today: string, id: string): (r: PageOutcome)
    requires reply.Answer?
    ensures r.Shown? && r.prediction == reply.prediction
    ensures r.record.symbol == Upper(OrElse(reply.symbol, tk))
    ensures r.meta == Some(ResultMeta(r.record.symbol, OrElse(reply.date, today), reply.source, reply.points))
    ensures r.record == Record(id, r.record.symbol, OrElse(reply.date, today), reply.prediction.direction,
                               reply.prediction.confidence)
  {
    var sym := Upper(OrElse(reply.symbol, tk));
    var date := OrElse(reply.date, today);
    Shown(reply.prediction, Some(ResultMeta(sym, date, reply.source, reply.points)),
          Record(id, sym, date, reply.prediction.direction, reply.prediction.confidence))
  }

  /** The date of the last client row, or today when it is empty. */
  function LastDate(rows: seq<CloseRow>, today: string): string
    requires |rows| > 0
  {
    OrElse(rows[|rows| - 1].date, today)
  }

  /** `catch` branch for a ticker, after the second server request: an
      error reply starts the client cascade; an unreachable server ends in
      the error toast without trying any provider. */
  function TickerFallback(tk: string, reply: ServerReply, outcomes: seq<Outcome>,
                          today: string, id: string): (r: PageOutcome)
    ensures reply.Unreachable? ==> r.ErrorToast?
    ensures reply.Answer? ==> r == ShowAnswer(reply, tk, today, id)
    ensures reply.ErrorReply? ==> (r.ErrorToast? <==> ClientCascade(outcomes).Err?)
    ensures reply.ErrorReply? && r.Shown? ==>
              var rows := ClientCascade(outcomes).value;
              r == PredictFromRows(rows, Upper(tk), "client_fallback", LastDate(rows, today), id)
  {
    match reply
    case Unreachable => ErrorToast
    case Answer(_, _, _, _, _) => ShowAnswer(reply, tk, today, id)
    case ErrorReply =>
      match ClientCascade(outcomes)
      case Err(_) => ErrorToast
      case Ok(rows) => PredictFromRows(rows, Upper(tk), "client_fallback", LastDate(rows, today), id)
  }

  /** The intended fallback: a server without a prediction, whether it
      answers with an error or not at all, hands over to the providers,
      passing over those that throw. */
  function IntendedTickerFallback(tk: string, reply: ServerReply, outcomes: seq<Outcome>,
                                  today: string, id: string): (r: PageOutcome)
    ensures reply.Answer? ==> r == ShowAnswer(reply, tk, today, id)
    ensures !reply.Answer? ==> (r.ErrorToast? <==> forall j :: 0 <= j < |outcomes| ==> !HasRows(outcomes[j]))
    ensures !reply.Answer? && r.Shown? ==>
              var rows := IntendedCascade(outcomes).value;
              r == PredictFromRows(rows, Upper(tk), "client_fallback", LastDate(rows, today), id)
  {
    match reply
    case Answer(_, _, _, _, _) => ShowAnswer(reply, tk, today, id)
    case _ =>
      match IntendedCascade(outcomes)
      case Err(_) => ErrorToast
      case Ok(rows) => PredictFromRows(rows, Upper(tk), "client_fallback", LastDate(rows, today), id)
  }

  /** With the server down, the page gives up although a provider has rows. */
  lemma UnreachableServerSkipsProviders(tk: string, row: CloseRow, today: string, id: string)
    ensures TickerFallback(tk, Unreachable, [Rows([row])], today, id) == ErrorToast
    ensures IntendedTickerFallback(tk, Unreachable, [Rows([row])], today, id).Shown?
  {
    assert HasRows([Rows([row])][0]);
  }

  /** Where the server answers with an error and no provider throws, the
      page's fallback and the intended one agree. */
  lemma FallbacksAgreeOnErrorReplies(tk: string, reply: ServerReply, outcomes: seq<Outcome>, today: string, id: string)
    requires !reply.Unreachable?
    requires forall j :: 0 <= j < |outcomes| ==> outcomes[j].Rows?
    ensures TickerFallback(tk, reply, outcomes, today, id) == IntendedTickerFallback(tk, reply, outcomes, today, id)
  {
    CascadesAgreeWithoutThrows(outcomes);
  }

  /** An uploaded file. */
  datatype Upload = Upload(name: string, text: string)

  /** `handlePredict` around its ticker `catch` branch, given as `caught`.
      With a file: the server's `/predict-file` answer, recorded under the
      reply's symbol and its date or today, with no metadata line; or the
      page's own reading of the file. Without: `normalizeRange` (an invalid
      date throws, and throws again in the `catch` branch), then the
      server's `/predict` answer, whose ledger record takes the reply's
      `symbol` and `date` as they are; or the `catch` branch. Both
      `normalizeRange` calls are taken to give the same range. */
  function PredictClick(file: Option<Upload>, tk: string, range: Result<DateRange, string>, first: ServerReply,
                        caught: PageOutcome, today: string, id: string): (r: PageOutcome)
    ensures file.Some? && !first.Answer? ==> r == FileFallback(file.value.name, file.value.text, today, id)
    ensures file.Some? && first.Answer? ==>
              r == Shown(first.prediction, None, Record(id, first.symbol, OrElse(first.date, today),
                                                        first.prediction.direction, first.prediction.confidence))
    ensures file.None? && range.Err? ==> r.ErrorToast?
    ensures file.None? && range.Ok? && !first.Answer? ==> r == caught
    ensures file.None? && range.Ok? && first.Answer? ==>
              && r.Shown? && r.prediction == first.prediction
              && r.meta == Some(ResultMeta(Upper(OrElse(first.symbol, tk)), OrElse(first.date, today),
                                           first.source, first.points))
              && r.record == Record(id, first.symbol, first.date, first.prediction.direction,
                                    first.prediction.confidence)
  {
    match file
    case Some(f) =>
      (match first
       case Answer(p, sym, date, _, _) =>
         Shown(p, None, Record(id, sym, OrElse(date, today), p.direction, p.confidence))
       case _ => FileFallback(f.name, f.text, today, id))
    case None =>
      if range.Err? then ErrorToast
      else
        match first
        case Answer(p, sym, date, source, points) =>
          Shown(p, Some(ResultMeta(Upper(OrElse(sym, tk)), OrElse(date, today), source, points)),
                Record(id, sym, date, p.direction, p.confidence))
        case _ => caught
  }

  /** `handlePredict` as the page has it: its ticker `catch` branch is
      `TickerFallback` over the providers' outcomes, so a server that does
      not answer the second request ends in the error toast. */
  function HandlePredict(file: Option<Upload>, selected: string, custom: string,
                         range: Result<DateRange, string>, first: ServerReply, second: ServerReply,
                         providers: ProviderReplies, today: string, id: string): (r: PageOutcome)
    ensures file.Some? && !first.Answer? ==> r == FileFallback(file.value.name, file.value.text, today, id)
    ensures file.None? && range.Err? ==> r.ErrorToast?
    ensures file.None? && range.Ok? && !first.Answer? ==>
              r == TickerFallback(ResolveTicker(selected, custom), second, ClientOutcomes(providers, range.value),
                                  today, id)
    ensures file.None? && range.Ok? && !first.Answer? && second.Unreachable? ==> r == ErrorToast
    ensures first.Answer? && (file.Some? || range.Ok?) ==> r.Shown? && r.prediction == first.prediction
    ensures first.Answer? && file.None? && range.Ok? ==>
              r.record == Record(id, first.symbol, first.date, first.prediction.direction, first.prediction.confidence)
    ensures r.Shown? && file.None? && !first.Answer? && !second.Answer? ==> r.meta.value.source == "client_fallback"
  {
    var tk := ResolveTicker(selected, custom);
    var caught := if range.Ok? then TickerFallback(tk, second, ClientOutcomes(providers, range.value), today, id)
                  else ErrorToast;
    PredictClick(file, tk, range, first, caught, today, id)
  }

  /** `handlePredict` with the intended `catch` branch,
      `IntendedTickerFallback`: without a prediction from the server, the
      providers are asked, passing over those that throw. */
  function IntendedHandlePredict(file: Option<Upload>, selected: string, custom: string,
                                 range: Result<DateRange, string>, first: ServerReply, second: ServerReply,
                                 providers: ProviderReplies, today: string, id: string): (r: PageOutcome)
    ensures file.Some? && !first.Answer? ==> r == FileFallback(file.value.name, file.value.text, today, id)
    ensures file.None? && range.Err? ==> r.ErrorToast?
    ensures file.None? && range.Ok? && !first.Answer? ==>
              r == IntendedTickerFallback(ResolveTicker(selected, custom), second,
                                          ClientOutcomes(providers, range.value), today, id)
    ensures file.None? && range.Ok? && !first.Answer? && !second.Answer? ==>
              var os := ClientOutcomes(providers, range.value);
              (r.ErrorToast? <==> forall j :: 0 <= j < |os| ==> !HasRows(os[j]))
    ensures first.Answer? && (file.Some? || range.Ok?) ==> r.Shown? && r.prediction == first.prediction
  {
    var tk := ResolveTicker(selected, custom);
    var caught := if range.Ok? then IntendedTickerFallback(tk, second, ClientOutcomes(providers, range.value), today, id)
                  else ErrorToast;
    PredictClick(file, tk, range, first, caught, today, id)
  }

  /** A click with the server down: the page shows the error toast though
      the chart API has rows, where the intended flow shows a prediction. */
  lemma UnreachableServerFailsClick(selected: string, custom: string, range: DateRange, providers: ProviderReplies,
                                    today: string, id: string)
    requires providers.chart.Body? && |ChartCloses(providers.chart.body)| > 0
    ensures HandlePredict(None, selected, custom, Ok(range), Unreachable, Unreachable, providers, today, id)
            == ErrorToast
    ensures IntendedHandlePredict(None, selected, custom, Ok(range), Unreachable, Unreachable, providers,
                                  today, id).Shown?
  {
    assert HasRows(ClientOutcomes(providers, range)[0]);
  }

  /** A click whose server answers with errors and whose chart request
      fails: the page shows the error toast though Stooq has rows in the
      range, where the intended flow shows a prediction from them. */
  lemma ThrowingChartFailsClick(selected: string, custom: string, range: DateRange, providers: ProviderReplies,
                                today: string, id: string)
    requires !providers.chart.Body? && providers.stooq.Body?
    ensures HandlePredict(None, selected, custom, Ok(range), ErrorReply, ErrorReply, providers, today, id)
            == ErrorToast
    ensures StooqClientCloses(providers.stooq.body, range) != [] ==>
              IntendedHandlePredict(None, selected, custom, Ok(range), ErrorReply, ErrorReply, providers,
                                    today, id).Shown?
  {
    ThrowingProviderStopsCascade(providers, range);
  }

  /** Where the server is reachable and no provider throws, the page and
      the intended flow agree on every click. */
  lemma ClicksAgreeWhenReachable(file: Option<Upload>, selected: string, custom: string,
                                 range: Result<DateRange, string>, first: ServerReply, second: ServerReply,
                                 providers: ProviderReplies, today: string, id: string)
    requires !second.Unreachable?
    requires NoProviderThrows(providers)
    ensures HandlePredict(file, selected, custom, range, first, second, providers, today, id)
            == IntendedHandlePredict(file, selected, custom, range, first, second, providers, today, id)
  {
    if range.Ok? {
      ClientOutcomesThrow(providers, range.value);
      FallbacksAgreeOnErrorReplies(ResolveTicker(selected, custom), second, ClientOutcomes(providers, range.value),
                                   today, id);
    }
  }

  /** How the page reads a `/predict` reply: `no_data` has an `error` field
      and so counts as an error reply; anything else is an answer carrying
      every field of the prediction, with `points` a number. */
  function SeenPredict(reply: Server.Reply): (r: ServerReply)
    ensures r.ErrorReply? <==> reply.NoData?
    ensures !r.Unreachable?
    ensures r.Answer? ==> && r.prediction == reply.prediction && r.symbol == reply.symbol
                          && r.date == reply.date && r.source == reply.source && r.points == Some(reply.points)
  {
    match reply
    case NoData => ErrorReply
    case Predicted(p, sym, date, source, points) => Answer(p, sym, date, source, Some(points))
  }

  /** How the page reads a `/predict-file` reply: an uncaught server
      exception comes back as a plain-text HTTP 500 whose JSON parse
      throws; the two `error` replies are error replies; a prediction
      carries the file name and an empty date. */
  function SeenPredictFile(reply: Server.FileReply): (r: ServerReply)
    ensures r.Unreachable? <==> reply.FileFailed?
    ensures r.ErrorReply? <==> reply.NoCloseColumn? || reply.FileNoData?
    ensures r.Answer? ==> r.prediction == reply.prediction && r.symbol == reply.symbol && r.date == ""
  {
    match reply
    case FileFailed => Unreachable
    case NoCloseColumn => ErrorReply
    case FileNoData => ErrorReply
    case FilePredicted(p, sym) => Answer(p, sym, "", "", None)
  }

  /** The server's `except` reply is a prediction to the page: for a ticker
      it is shown as the "no signal" answer, and none of the page's own
      providers is consulted. */
  lemma ServerFallbackIsShown(ticker: string, end: string, selected: string, custom: string,
                              range: Result<DateRange, string>, second: ServerReply,
                              providers1: ProviderReplies, providers2: ProviderReplies, today: string, id: string)
    requires range.Ok?
    ensures var first := SeenPredict(Server.Fallback(ticker, end));
            var r := HandlePredict(None, selected, custom, range, first, second, providers1, today, id);
            && r.Shown? && r.prediction == NoSignal
            && r == HandlePredict(None, selected, custom, range, first, second, providers2, today, id)
  {
  }
}
