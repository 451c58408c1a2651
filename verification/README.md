# Quantum-power: a verified model of the prediction core

Quantum-power predicts whether a stock's next daily close goes UP or DOWN.
It has a React front end and a FastAPI server.

- **Prediction page.** The page normalises a user's date range. It asks the
  server's `/predict` (or `/predict-file` for an uploaded CSV). When the server
  answers a ticker request with an error, the page falls back to reading
  closes itself: the Yahoo chart API, then a Stooq CSV, then the Yahoo CSV
  download. It then applies a moving-average heuristic. A server that does not
  answer at all ends in an error toast.
- **Ledger.** Every prediction is stored newest first in a browser-storage
  ledger of at most 1000 records.
- **Dashboard, History and Analytics.** These pages summarise the ledger: the
  share of UP calls, a 7-point confidence trend, confidence buckets and
  per-month tallies.
- **Charts page.** It reads OHLC data from an uploaded CSV or from the
  server's `/ohlc`. It sanitises the rows before drawing them: ISO dates only,
  finite numbers only, one row per date (the last one wins), sorted by date.
- **Server.** It tries yfinance, then the Yahoo chart API, then Stooq under the
  plain and the `.us` symbol. It hands at most the 500 latest closes to the
  model. The model is a quantum circuit if its weights load, else a keras
  network, else the same moving-average heuristic.
- **Training scripts.** They cut close series into labelled windows and split
  them 80/20. One does so in order; the other after a random permutation and a
  per-window standardisation.

The Dafny model is pure functions over immutable datatypes. Replies from the
network, the clock, the model files and the learned models appear as
parameters: `Feeds.Response` (failed, non-success status, or a body), day
numbers for "today", and functions `circuit`/`network` that may fail.

Each module follows one part of the program:

| module | models |
|---|---|
| `Wrappers`, `Seqs`, `Text`, `Numbers`, `Calendar` | the JavaScript and Python primitives the code relies on: `trim`, `split`, `includes`, `findIndex`/`index`, `Number`, `float`, `Math.round`/`round`, `int`, `fromisoformat`, `padStart`, `csv.reader` on unquoted text |
| `Charts`, `Sanitizer` | `parseCsv`, `toBusinessDay`, `sanitizeRows`, the upload and fetch handlers of the Charts page |
| `Ledger`, `Stats` | `state.ts`, and the summaries of Dashboard, History and Analytics |
| `UserDates` | `parseUserDate`, `fetchYahooMeta`'s first trade date, `normalizeRange` |
| `Predictor` | `sma`, `fastPredict`, the server's model loading and `infer_from_closes` |
| `Windowing` | `makeSequences`/`trainAndPredict`'s data, `make_dataset`, `fetch_closes`, `preprocess`, the shuffle and the splits |
| `ClientFlow` | the close readers of the prediction page, its three-provider cascade and `handlePredict` |
| `Server` | `/predict` and `/predict-file` |
| `Ohlc` | `/ohlc` |

## Model

| member | source | states |
|---|---|---|
| Text.JsLines | src/pages/Charts.tsx:12 | `text.trim().split(/\r?\n/)`: one line per line-feed piece of the trimmed text, at least one, each the piece less the carriage return it ends with, none holding a line feed |
| Text.Trim | src/pages/Charts.tsx:13 | JavaScript `trim()`: empty iff the text is all JavaScript whitespace (the byte-order mark and the Unicode spaces included), otherwise starting and ending with a non-space |
| Text.Strip | server/app.py:155 | Python `str.strip()`: the same over Python's whitespace, which adds U+001C-U+001F and U+0085 and leaves out the byte-order mark |
| Text.TrimsDifferOnByteOrderMark | server/app.py:155 | a leading byte-order mark is removed by `trim()` and kept by `strip()` |
| Text.Split | src/pages/Charts.tsx:24 | the pieces of a split hold no separator and join back to the input |
| Text.SplitJoin | src/pages/Charts.tsx:24 | splitting undoes joining separator-free parts |
| Text.NormalizeHeader | src/pages/Charts.tsx:13 | each header cell is trimmed and lower-cased, position by position |
| Text.FindContaining | src/pages/Charts.tsx:15-20 | `findIndex(h => h.includes(key))`: -1 iff no cell contains the key, else the first cell that does |
| Text.IndexOf | server/app.py:161-162 | `header.index(key)`: absent iff the key is not a cell, else its first position |
| Text.PyLines | server/app.py:156 | the lines `io.StringIO` hands on: none for empty text, none holding a line feed |
| Text.PyCsvRows | server/app.py:156 | `csv.reader` over unquoted text: one row per line; without carriage returns each row is the line's comma-separated cells, a blank line giving an empty row |
| Text.BareCarriageReturnRaises | server/app.py:156 | a carriage return followed by more text on the same line makes `csv.reader` raise |
| Numbers.JsNumber | src/pages/Charts.tsx:26-30 | `Number(cell)`: undefined is NaN, a blank cell is 0, otherwise the decimal value of the trimmed literal, NaN exactly when it is no decimal literal |
| Numbers.PyFloat | server/app.py:174 | `float(cell)`: a blank cell is rejected, otherwise the decimal value of the stripped literal, rejected exactly when it is no decimal literal |
| Numbers.DigitsParse | src/pages/Charts.tsx:106 | a digit string reads as its value under both `Number` and `float` |
| Numbers.JsNumberPyFloatAgree | server/app.py:174 | where both runtimes trim a cell alike, `Number` gives a finite value iff `float` accepts, and the same value |
| Numbers.ByteOrderMarkSplitsParsers | server/app.py:174 | a digit string behind a byte-order mark is a number to `Number` and an error to `float` |
| Numbers.JsRound | src/pages/Dashboard.tsx:19 | `Math.round` is within half a unit of its argument, halves rounded up |
| Numbers.PyRound | server/app.py:73 | `round` is within half a unit, ties going to the even integer |
| Numbers.RoundingsAgreeOffHalves | server/app.py:90 | the server's and the page's rounding of a confidence differ only on exact halves, and then by one |
| Numbers.Clamp | src/pages/Predict.tsx:204 | `Math.min(95, Math.max(55, x))` lies in the bounds and is `x` inside them |
| Numbers.NatToDecimalRoundTrip | src/pages/Predict.tsx:236-237 | the decimal text of a natural parses back to it |
| Numbers.TwoDigitNormalForm | src/pages/Predict.tsx:236-237 | `String(parseInt(d)).padStart(2, "0")` on one or two digits is the two-digit form of `d` |
| Numbers.TruncToInt | server/app.py:258 | `int(x)` truncates toward zero |
| Calendar.IsoDay | server/app.py:118-119 | `datetime.fromisoformat` on `YYYY-MM-DD`: a day number iff the fields name a real day of a year from 1, and then the day count since 1970-01-01 |
| Calendar.JsIsoDay | src/pages/Predict.tsx:254-257 | `new Date` on `YYYY-MM-DD`: a day number iff the month is 1-12 and the day 1-31, any year; a day past the month's end rolls into the next month |
| Calendar.IsoDaysAgree | src/pages/Predict.tsx:254-257 | on every date Python accepts, the two readers give the same day |
| Calendar.DaysFromCivilCounts | server/app.py:118-119 | 1970-01-01 is day 0 and the calendar's next day is always one more |
| Calendar.FebruaryThirtiethRollsOver | src/pages/Predict.tsx:254-257 | `2024-02-30` is an error to Python and 1 March 2024 to the browser |
| Calendar.YearZeroSplitsReaders | server/app.py:166-167 | `0000-01-01` is an error to Python and a day to the browser |
| Calendar.IsoParts | src/pages/Charts.tsx:106 | an ISO date splits at its dashes into year, month and day |
| Charts.LocateColumns | src/pages/Charts.tsx:13-21 | each column index is the first header cell containing that field's key, or -1 |
| Charts.ParseOhlcLine | src/pages/Charts.tsx:24-33 | a line is kept iff its trimmed date is non-empty and the four prices are numbers; a missing or blank volume is 0, any other volume is `Number` of the cell, NaN when unreadable |
| Charts.EmptyPriceCellsReadAsZero | src/pages/Charts.tsx:26-31 | an empty price cell reads as 0, so a dated line with empty prices is kept |
| Charts.ParseCsv | src/pages/Charts.tsx:11-36 | fewer rows than lines: the header line never yields a row |
| Charts.ParseCsvOrigins | src/pages/Charts.tsx:22-35 | every row comes from a data line (index at least 1), in input order, and is that line's reading |
| Charts.BusinessDayOfIsoDate | src/pages/Charts.tsx:105-108 | on a sanitised time string `toBusinessDay` gives exactly its year, month and day |
| Sanitizer.LastValid | src/pages/Charts.tsx:118-124 | reference meaning of "the last valid row of a date": none iff no valid row has that date |
| Sanitizer.Upsert | src/pages/Charts.tsx:123 | `map.set` on a sorted list: still strictly sorted, the new row found under its date, every other date unchanged |
| Sanitizer.Sanitize | src/pages/Charts.tsx:115-126 | the output is strictly sorted by date and all valid, and under each date holds exactly the last valid input row of that date |
| Sanitizer.SanitizeLastWins | src/pages/Charts.tsx:122-123 | every output row is the last valid input row of its date, and every valid input date appears |
| Sanitizer.SanitizeCanonical | src/pages/Charts.tsx:115-126 | a valid, strictly sorted list is its own sanitised form |
| Sanitizer.SanitizeIdempotent | src/pages/Charts.tsx:115-126 | sanitising twice is sanitising once |
| Sanitizer.UploadFile | src/pages/Charts.tsx:171-183 | a file not ending in `.csv` is rejected; otherwise the chart shows the sanitised parsed rows |
| Sanitizer.FetchRows | src/pages/Charts.tsx:185-199 | a reply without rows or with an empty array is rejected; otherwise the chart shows its rows sanitised |
| Ledger.GetPredictions | src/lib/state.ts:11-20 | missing, empty, unparseable or non-array storage reads as the empty ledger; an array is read as is |
| Ledger.Insert | src/lib/state.ts:22-26 | the new record first, then the old ones in order, cut at 1000 |
| Ledger.AddThenGet | src/lib/state.ts:11-26 | with a codec whose parse undoes its serialisation, reading after `addPrediction` gives the old ledger with the record inserted |
| Ledger.NoDeduplication | src/lib/state.ts:22-26 | a record with an id already present is still added and the old one kept |
| Ledger.InsertAllNewestFirst | src/lib/state.ts:22-26 | adding several records gives them newest first, followed by the old ledger, cut at 1000 |
| Stats.UpDownPartition | src/pages/Analytics.tsx:21-23 | bullish plus bearish counts equal the number of predictions |
| Stats.UpShare | src/pages/Dashboard.tsx:16-20 | the share of UP predictions in percent, rounded: in [0, 100], 0 with no UP call, 100 with only UP calls, within half a point of the exact share |
| Stats.DirectionData | src/pages/Analytics.tsx:21-28 | bullish counts the UP records and bearish the rest |
| Stats.Bucket | src/pages/Analytics.tsx:32-33 | a confidence's bucket: 0 iff below 60, 4 iff 90 or more, otherwise the ten-point band it falls in |
| Stats.ConfidenceDistribution | src/pages/Analytics.tsx:29-42 | five counts, each the number of records in that bucket, summing to the number of records |
| Stats.Trend | src/pages/Dashboard.tsx:12-15 | the latest seven (or fewer) records, oldest first, as date and confidence |
| Stats.DirectionLabel | src/pages/Dashboard.tsx:73 | "N/A" iff the ledger is empty, else the newest record's direction |
| Stats.DashboardOf | src/pages/Dashboard.tsx:12-22 | the dashboard's trend, accuracy, total and last direction |
| Stats.DashboardAfterAdd | src/pages/Dashboard.tsx:12-22 | after a prediction is added, the last direction is its direction, the trend ends with it and the total grows up to 1000 |
| Stats.HistoryOf | src/pages/History.tsx:11-56 | success rate as the UP share, total as the ledger size, "this month" as at most 30 |
| Stats.MonthKey | src/pages/Analytics.tsx:14 | `date.slice(0, 7)`: a prefix of at most seven characters, exactly seven when the date has them |
| Stats.Tally | src/pages/Analytics.tsx:15-17 | counting a record bumps its month's entry, or appends a new one, keeping months distinct and the total one larger |
| Stats.MonthTallies | src/pages/Analytics.tsx:12-18 | every month that occurs is listed once, with its count of records and of UP records; the counts add up to the number of records |
| Stats.MonthAccuracy | src/pages/Analytics.tsx:19 | a month's UP share in percent, rounded: in [0, 100] and within half a point of the exact share |
| Stats.PerformanceData | src/pages/Analytics.tsx:11-20 | one point per month in the tallies' order, with that month's record count and the rounded UP share of its records as accuracy |
| Stats.MonthTalliesFirstSeenOrder | src/pages/Analytics.tsx:12-18 | the tallies list the months in the order of their first record |
| Stats.PerformanceDataFirstSeenOrder | src/pages/Analytics.tsx:19 | the points keep the months in the order of their first record |
| UserDates.PadTwo | src/pages/Predict.tsx:236-237 | one digit gains a leading zero, two digits stay |
| UserDates.ParseUserDate | src/pages/Predict.tsx:229-250 | the empty input stays empty; a string of none of the three shapes comes back unchanged; otherwise the result is the input or an ISO-shaped date |
| UserDates.DayFirstRewrite | src/pages/Predict.tsx:231-232 | `DD-MM-YYYY` becomes `YYYY-MM-DD` |
| UserDates.YearFirstRewrite | src/pages/Predict.tsx:233-239 | `YYYY-M-D` or `YYYY/M/D` has month and day zero-padded |
| UserDates.MonthFirstRewrite | src/pages/Predict.tsx:240-248 | `M/D/YYYY` is read month first unless the first number exceeds 12 |
| UserDates.IsoDateFixed | src/pages/Predict.tsx:229-250 | an ISO date comes back unchanged |
| UserDates.ParseUserDateIdempotent | src/pages/Predict.tsx:229-250 | rewriting twice is rewriting once |
| UserDates.FirstTradeDay | src/pages/Predict.tsx:219-227 | a first trade day exists iff the lookup answered with a non-zero timestamp, and is that timestamp's day |
| UserDates.ReadBound | src/pages/Predict.tsx:254-257 | an empty bound is absent; a non-empty one is its rewritten date's day, or an error when that is no date |
| UserDates.NormalizeRange | src/pages/Predict.tsx:252-276 | an error iff a bound is unreadable; otherwise start <= end <= today; the end is the later given bound (today when none) capped at today; the start is the earlier given bound, else the first trade day or a year ago, raised to a known first trade day and capped at the end |
| UserDates.NormalizeRangeSymmetric | src/pages/Predict.tsx:258-260 | swapping the two given bounds gives the same range |
| UserDates.NormalizeRangeKeepsValidRange | src/pages/Predict.tsx:268-272 | a range already inside [first trade day, today] comes back unchanged |
| Windowing.WindowCount | server/train.py:22 | `range(n - w - 1)` runs `n - w - 1` times, or not at all |
| Windowing.Label | server/train.py:27 | the label is 1 iff the next close is at least the current one |
| Windowing.MakeDataset | server/train.py:19-30 | window `i` is closes `i..i+w` labelled by comparing close `i+w+1` with close `i+w` |
| Windowing.MakeSequences | src/pages/Predict.tsx:158-169 | the loop filling `X` and `y` yields the windows and labels of the dataset |
| Windowing.MakeDatasetPrefix | server/train.py:19-30 | more data only appends samples: the earlier ones are unchanged |
| Windowing.RisingSeriesLabelsUp | server/train.py:22-27 | on a non-decreasing series every label is 1 |
| Windowing.FallingSeriesLabelsDown | server/train.py:22-27 | on a strictly falling series every label is 0 |
| Windowing.FlatSeriesLabelsUp | server/train.py:27 | on a constant series every label is 1: a tie counts as up |
| Windowing.SplitPoint | server/train.py:37 | `int(n * 0.8)` is the floor of four fifths of `n` |
| Windowing.ChronologicalSplit | server/train.py:37-39 | train followed by validation is the dataset, train holding the first 80% |
| Windowing.PrepareTraining | src/pages/Predict.tsx:171-179 | refused iff fewer than 50 windows of 20; otherwise an in-order 80/20 split of the windows, at least 40 and 10 |
| Windowing.DenseTrainingSets | server/train.py:35-39 | the dense trainer's sets are the in-order split of its 20-wide dataset |
| Windowing.DropMissing | server/train_qlstm.py:8-12 | dropping missing closes never lengthens the series |
| Windowing.DropMissingSpec | server/train.py:17 | dropping missing closes keeps each present close, drops each missing one and distributes over concatenation |
| Windowing.Preprocess | server/train_qlstm.py:27-32 | each value times the divisor (the deviation, or 1 when it is 0) is its distance from the window's mean; so the window keeps its length, sums to zero, and is all zeros when constant |
| Windowing.GatherShuffle | server/train_qlstm.py:41-43 | indexing through the shuffled index array permutes what it indexes |
| Windowing.ShuffledSplit | server/train_qlstm.py:41-46 | after the shuffle the two sets together are a permutation of the samples, train holding 80% of them |
| Windowing.ShufflePairsLabels | server/train_qlstm.py:43 | shuffling `X` and `y` by the same index array keeps each window with its label |
| Windowing.PreprocessAll | server/train_qlstm.py:40 | each window is `Preprocess` of the input window with its own deviation, each label kept |
| Windowing.QlstmTrainingSets | server/train_qlstm.py:37-46 | the quantum trainer's sets are a permutation of its standardised 8-wide dataset, train holding 80% |
| Predictor.Sma | src/pages/Predict.tsx:147-156 | NaN until a full window, then the mean of the last `period` values |
| Predictor.SmaLast | src/pages/Predict.tsx:199-201 | the last moving average is the mean of the last 20 values |
| Predictor.FastPredict | src/pages/Predict.tsx:196-206 | no signal (DOWN, 50) below 20 values or for a zero average; otherwise UP iff the last value exceeds the average, with confidence in [55, 95] |
| Predictor.PyHeuristic | server/app.py:84-91 | the same rule on the server, raising exactly for a zero average; the confidence is the deviation from the mean in percent, clamped to [55, 95] and rounded half to even |
| Predictor.HeuristicsAgree | server/app.py:84-91 | where the server raises the page has no signal; otherwise both give the same direction, and the page's confidence is the server's or one more |
| Predictor.RisingLastIsUp | src/pages/Predict.tsx:203 | a last value above the 19 before it gives UP |
| Predictor.FallingLastIsDown | src/pages/Predict.tsx:203 | a last value below the 19 before it gives DOWN |
| Predictor.LearnedPrediction | server/app.py:80-81 | UP iff the probability is at least 0.5; the confidence is the percentage rounded by `round`, within half a point and ties to even |
| Predictor.QuantumProbability | server/app.py:72 | `(z + 1) / 2`: an expectation in [-1, 1] maps into [0, 1], and the probability is 0.5 exactly when the expectation is 0 |
| Predictor.LoadModels | server/app.py:26-43 | the quantum weights when their file exists and loads; keras only when no weights file exists and it loads |
| Predictor.ServerWindow | server/app.py:50-54 | none below `window` values, else the last `window` values |
| Predictor.QuantumInput | server/app.py:68 | `arr[-window:]` is a suffix, of length `window` when there is enough data |
| Predictor.InferFromCloses | server/app.py:56-91 | a model that answers is used; otherwise the heuristic decides, and only it can fail |
| Predictor.InferFallsBack | server/app.py:74-84 | without a model, or when the model raises, the answer is the heuristic's |
| Predictor.InferConfidenceRange | server/app.py:56-91 | with in-range model outputs every confidence lies in [0, 100] |
| ClientFlow.CloseLine | src/pages/Predict.tsx:315-320 | a line is kept iff its trimmed date is non-empty and its close reads as a number |
| ClientFlow.CloseRows | src/pages/Predict.tsx:308-320 | the header line never yields a row |
| ClientFlow.CloseRowsOrigins | src/pages/Predict.tsx:315-320 | every row comes from a data line, in order, and is that line's reading |
| ClientFlow.CsvClosesColumns | src/pages/Predict.tsx:309-313 | the reader uses the first header cell containing "date" and the first containing "close" |
| ClientFlow.YahooCsvColumns | src/pages/Predict.tsx:131-140 | the close column is the first "adj close" cell, or else the first "close" cell |
| ClientFlow.KeepInRange | src/pages/Predict.tsx:113-114 | exactly the rows dated inside the range are kept |
| ClientFlow.KeepInRangeIsFilter | src/pages/Predict.tsx:113-114 | the range filter keeps order and duplicates: it is the order-keeping filter of its rows |
| ClientFlow.KeepInRangeOrigins | src/pages/Predict.tsx:113-114 | the kept rows are, in input order, exactly the rows whose dates lie in the range |
| ClientFlow.StooqClientCloses | src/pages/Predict.tsx:99-116 | the reader's rows dated within the range, in file order |
| ClientFlow.ChartCloses | src/pages/Predict.tsx:67-76 | one row per position that has both a timestamp and a close entry, a `null` close read as 0 |
| ClientFlow.FetchYahoo | src/pages/Predict.tsx:57-93 | throws iff the first request fails or, with no first rows, the second request fails; the first rows win, then the second reply's rows |
| ClientFlow.FetchStooqClient | src/pages/Predict.tsx:95-117 | throws iff the request fails; a body gives exactly the rows `StooqClientCloses` keeps from it, every one in the range |
| ClientFlow.ClientOutcomes | src/pages/Predict.tsx:337-343 | the `catch` branch asks `fetchYahoo`, then `fetchStooqClient` over the normalised range, then `fetchYahooCsvClient` |
| ClientFlow.ClientOutcomesThrow | src/pages/Predict.tsx:57-143 | every provider answers with rows iff the chart request and both downloads answer with an OK status and the chart's one-year retry, when made, gets a reply |
| ClientFlow.FetchYahooCsv | src/pages/Predict.tsx:119-145 | throws iff the request fails; otherwise the CSV reader's rows |
| ClientFlow.ClientCascade | src/pages/Predict.tsx:336-344 | the first provider with rows wins unless one before it throws; `no_data` iff all are empty |
| ClientFlow.IntendedCascade | src/pages/Predict.tsx:336-344 | the first provider with rows wins; `no_data` iff none has rows |
| ClientFlow.CascadesAgreeWithoutThrows | src/pages/Predict.tsx:336-344 | where no provider throws, the page's cascade and the intended one agree |
| ClientFlow.ThrowingProviderStopsCascade | src/pages/Predict.tsx:336-344 | a failing chart request ends the page's cascade in `fetch_failed` though Stooq has rows in the range, which the intended cascade returns |
| ClientFlow.ResolveTicker | src/pages/Predict.tsx:281 | the trimmed choice (custom symbol for `__custom__`), or "AAPL" when empty; never empty |
| ClientFlow.PredictFromRows | src/pages/Predict.tsx:345-350 | the heuristic over the last 500 closes, with its metadata and ledger record |
| ClientFlow.OnlyLastPointsMatter | src/pages/Predict.tsx:322 | closes before the last 500 never change the page's prediction |
| ClientFlow.FileFallback | src/pages/Predict.tsx:306-330 | an error iff the file has no readable close rows, else the heuristic over them labelled "upload" |
| ClientFlow.ShowAnswer | src/pages/Predict.tsx:354-357 | the server's prediction is shown; the metadata line and the ledger record carry the reply's symbol (or the ticker) upper-cased and its date (or today); the record keeps the prediction's direction and confidence |
| ClientFlow.TickerFallback | src/pages/Predict.tsx:331-358 | an unreachable server ends in the error toast; an error reply falls back to the page's cascade |
| ClientFlow.IntendedTickerFallback | src/pages/Predict.tsx:331-358 | any reply without a prediction hands over to the providers; an error only when none has rows |
| ClientFlow.UnreachableServerSkipsProviders | src/pages/Predict.tsx:334-336 | with the server down the page gives up although a provider has rows |
| ClientFlow.FallbacksAgreeOnErrorReplies | src/pages/Predict.tsx:336-353 | with a reachable server and no throwing provider, the page's fallback and the intended one agree |
| ClientFlow.HandlePredict | src/pages/Predict.tsx:278-366 | one click as the page has it: the server's prediction recorded under the reply's raw symbol and date; else the file fallback, or for a ticker `TickerFallback` over the three providers' outcomes, so an unreachable server ends in the error toast; an unreadable date is an error |
| ClientFlow.PredictClick | src/pages/Predict.tsx:278-304 | the `try` block: a file answer is recorded with its date or today and no metadata line; a ticker answer shows the upper-cased symbol and records the raw one; otherwise the `catch` branch |
| ClientFlow.IntendedHandlePredict | src/pages/Predict.tsx:278-366 | one click with the intended `catch` branch: without a server prediction the error toast comes only when no provider has rows |
| ClientFlow.UnreachableServerFailsClick | src/pages/Predict.tsx:334-361 | a click with the server down ends in the error toast though the chart API has rows; the intended flow shows a prediction |
| ClientFlow.ThrowingChartFailsClick | src/pages/Predict.tsx:336-361 | a click whose server answers with errors and whose chart request fails ends in the error toast though Stooq has rows in the range; the intended flow shows a prediction |
| ClientFlow.ClicksAgreeWhenReachable | src/pages/Predict.tsx:331-358 | with a reachable server and no throwing provider, the page and the intended flow agree on every click |
| ClientFlow.SeenPredict | src/pages/Predict.tsx:296-297 | `no_data` is an error reply; a prediction reaches the page with all its fields |
| ClientFlow.SeenPredictFile | src/pages/Predict.tsx:286-287 | the HTTP 500 of an uncaught exception is no answer; the `error` replies are error replies; a prediction keeps its file name |
| ClientFlow.ServerFallbackIsShown | server/app.py:204-205 | the server's `except` reply is shown as the no-signal prediction and no provider is consulted |
| Server.Present | server/app.py:109 | dropping missing closes never lengthens the series |
| Server.PresentOrigins | server/app.py:109 | exactly the rows with a close survive, in order, with their dates: each kept close is its row's and every row with a close is kept |
| Server.YfOutcome | server/app.py:101-114 | closes iff some row of the frame has one; they are the frame's present closes in order, dated by the frame's last row |
| Server.YfDateIsLastRow | server/app.py:110-113 | a last row without a close still dates the closes |
| Server.ChartPoints | server/app.py:134 | positions up to the shorter of the timestamp and close arrays, paired |
| Server.ChartOutcome | server/app.py:115-146 | a bound `fromisoformat` rejects, or a failed or non-200 request, gives nothing; otherwise closes iff some position has one, and they are the non-null closes in order, dated by the last of them |
| Server.StooqRow | server/app.py:171-179 | a row is kept iff its date parses inside the range and its close parses |
| Server.StooqKept | server/app.py:171-179 | every kept row is dated inside the range |
| Server.StooqKeptOrigins | server/app.py:171-179 | the kept closes are, in row order, exactly those of the rows `StooqRow` accepts |
| Server.DayRange | server/app.py:166-169 | both bounds must parse; they are ordered low to high |
| Server.StooqSelect | server/app.py:165-182 | raises iff a bound does not parse; nothing iff no row is kept; otherwise the kept closes, dated by the last kept row |
| Server.StooqText | server/app.py:155-164 | a bare carriage return inside a line makes `csv.reader` raise; otherwise at most one row, or a header without `date` or `close`, gives nothing; otherwise the data rows are read against the two columns the header names first |
| Server.StooqFetch | server/app.py:150-182 | a failed request, or a body `csv.reader` rejects, raises; a non-200 status gives nothing; a body is read against the ordered range; a last date lies in the range |
| Server.StooqFetchSymmetric | server/app.py:168-169 | the order of the bounds does not matter |
| Server.ServerCascade | server/app.py:183-197 | nothing iff every source is empty; else the first source with closes, or the first that raises, after empty ones |
| Server.CascadeFindsFirst | server/app.py:183-197 | the first source with closes after empty ones decides |
| Server.CascadeStopsAtRaise | server/app.py:183-197 | the first source that raises after empty ones ends the cascade |
| Server.SourceOutcomes | server/app.py:101-195 | four outcomes in the order yfinance, chart, Stooq plain, Stooq `.us`; the first two never raise |
| Server.PredictFromOutcomes | server/app.py:196-205 | `no_data` iff all sources are empty; a prediction is under the upper-cased ticker with at most 500 points; 0 points is the fixed fallback, and so is a raising source; otherwise the source is labelled |
| Server.PredictEndpoint | server/app.py:93-205 | defaulted bounds; upper-cased symbol; at most 500 points |
| Server.PredictUsesFirstSource | server/app.py:196-203 | the first source with closes supplies its latest 500 to the model, under its label |
| Server.StooqRaiseSkipsSecondSymbol | server/app.py:183-205 | a Stooq request that raises, on the network or in `csv.reader`, skips the `.us` symbol and ends in the fallback, not `no_data` |
| Server.FileColumn | server/app.py:214-220 | an exact `close` header cell first, `adj close` otherwise, none iff neither |
| Server.UploadCloses | server/app.py:213-226 | none iff no close column; otherwise the parsed cells of that column in the data rows, in order |
| Server.PredictFile | server/app.py:207-231 | an upload `csv.reader` rejects is a failure; otherwise `no_close_column` iff no column; `no_data` iff no cell parses; a failure iff the model step fails on the closes, only the heuristic's division by zero; a prediction is the model step's, under the file name |
| Server.FileClosesOrigins | server/app.py:221-226 | the closes are, in row order, exactly the cells of the column that `float` accepts |
| Ohlc.FrameBar | server/app.py:253-260 | a row is kept iff its four prices are present, which the bar carries; a NaN volume is 0, a number is truncated |
| Ohlc.FrameBars | server/app.py:245-262 | no frame gives no bars; never more bars than rows |
| Ohlc.FrameBarsOrigins | server/app.py:249-262 | the bars are, in row order, exactly those of the rows with four prices |
| Ohlc.ChartBar | server/app.py:283-290 | a bar exists iff every array reaches the position and its four prices are not null; its time and prices are that position's; a null volume is 0, a number is truncated |
| Ohlc.ChartBars | server/app.py:272-290 | at most one bar per position of the shorter of timestamps and closes |
| Ohlc.ChartBarsOrigins | server/app.py:283-290 | the bars are, in timestamp order, exactly those of the positions `ChartBar` accepts |
| Ohlc.LocateBarColumns | server/app.py:297-299 | columns are found iff all six exact header cells are present; each is the first cell of its name |
| Ohlc.StooqBar | server/app.py:300-305 | a row is kept iff its date cell exists, its four prices parse and its volume cell, when present, parses; the bar carries those values; a missing volume cell is 0, a present one is truncated |
| Ohlc.StooqBars | server/app.py:294-307 | a bare carriage return inside a line makes `csv.reader` raise; otherwise no header, or a missing column, gives no bars |
| Ohlc.StooqBarsOrigins | server/app.py:298-303 | with the columns found, the bars are, in row order, exactly those of the data rows `StooqBar` accepts |
| Ohlc.StooqReply | server/app.py:291-307 | none iff the request or `csv.reader` raised; a non-200 status gives no bars; a body gives `StooqBars` of it |
| Ohlc.StooqCsvRaiseIsUnavailable | server/app.py:291-324 | with yfinance and the chart API empty, a Stooq body `csv.reader` rejects gives `service_unavailable` |
| Ohlc.RangeOrAll | server/app.py:327-332 | fails iff a bound or a bar time does not parse; otherwise the bars inside the range, or all bars when none is inside |
| Ohlc.RangeOrAllOrigins | server/app.py:327-332 | the result is, in order, exactly the bars dated inside the range when there is one, and every bar otherwise |
| Ohlc.RangeOrAllSymmetric | server/app.py:329-330 | the order of the bounds does not matter |
| Ohlc.RangeOrAllIdempotent | server/app.py:327-332 | narrowing twice is narrowing once |
| Ohlc.OhlcEndpoint | server/app.py:237-334 | `no_data` iff the first source with bars has none; `service_unavailable` iff a request raised, a bound is rejected or a bar time is; otherwise that source's bars narrowed by `RangeOrAll` |
| Ohlc.OhlcSource | server/app.py:245-324 | yfinance bars when there are any; then, with both bounds accepted, the chart bars; then the Stooq stage; a rejected bound or a raising chart request gives none |
| Ohlc.FrameBarsDecide | server/app.py:263 | once yfinance has bars, the chart and Stooq replies do not matter |
| Ohlc.ChartFailureHidesStooq | server/app.py:263-271 | with no yfinance bars, a chart request that raises ends in `service_unavailable` whatever Stooq holds |
| Ohlc.Stooq | server/app.py:291-324 | a first request that raises, on the network or in `csv.reader`, ends the stage; bars for the plain symbol win; when it gives none (a non-200 status or a body without bars) the `.us` reply decides |
| Ohlc.PlainStooqBarsHideUsSymbol | server/app.py:296-310 | once the plain symbol's Stooq reply has bars, the `.us` reply cannot change the endpoint's answer |

## Left out

- Network, timeouts and `fetchWithTimeout`: every request is a `Feeds.Response`. A JSON body that does not parse counts as a failed request.
- Floating point: closes are exact reals. float32 rounding, infinities and the NaN spellings `float` accepts (`"nan"`, `"inf"`) are not modelled. NaN appears only as `Numbers.Num.NaN` and as missing closes.
- JsNumber (`Numbers.JsNumber`): reads only signed decimal literals. Exponents (`"1e3"`), hexadecimal, binary and octal literals and `"Infinity"` read as NaN here, where `Number` gives a value.
- PyFloat (`Numbers.PyFloat`): reads only signed decimal literals. Exponents, `_` digit separators (`"1_000"`), `"inf"`, `"nan"` and non-ASCII digits are rejected here, where `float` accepts them.
- IsoDay (`Calendar.IsoDay`): reads only the `YYYY-MM-DD` shape. `fromisoformat`'s other forms (`YYYYMMDD`, week dates, a time part) are rejected here.
- JsIsoDay (`Calendar.JsIsoDay`): reads only the `YYYY-MM-DD` shape. V8's fallback parser for other strings (`"March 1, 2024"`, `"2024/3/1"`) is not modelled: such a bound is an error in `UserDates.ReadBound` and such a row is out of range in `ClientFlow.InRange`.
- Timezones: a `YYYY-MM-DD` string is read at UTC midnight by both runtimes, and the local-time comparisons of the page are taken to agree with it. Chart timestamps arrive already as UTC date strings.
- UpShare (`Stats.UpShare`): the percentage is computed exactly, then rounded. The page computes `(up / total) * 100` in floating point first, so a percentage that is exactly a half in exact arithmetic can land just below it and round down there: 29 of 200 is 14.5, which the page computes as 14.499999999999998 and shows as 14, and the model rounds to 15.
- MonthAccuracy (`Stats.MonthAccuracy`): the same exact-arithmetic percentage as `Stats.UpShare`.
- DashboardOf (`Stats.DashboardOf`): the same exact-arithmetic percentage as `Stats.UpShare`.
- HistoryOf (`Stats.HistoryOf`): the same exact-arithmetic percentage as `Stats.UpShare`.
- Lower (`Text.Lower`): maps only ASCII letters. JavaScript `toLowerCase` and Python `lower` also map other scripts' letters.
- Upper (`Text.Upper`): maps only ASCII letters, like `Text.Lower`.
- CSV quoting: `csv.reader` is modelled on unquoted lines. Its line splitting is modelled: a carriage return ends a record, and one followed by more text on the same line raises. Quoted fields, and the line breaks they may hold, are not modelled.
- PerformanceData (`Stats.PerformanceData`): keeps the months in the order of their first record, as `Stats.PerformanceDataFirstSeenOrder` states. `Object.entries` does so only when no key is integer-like, which holds for records with ISO dates (`YYYY-MM`). A record whose date is not ISO can give an integer-like key: a Yahoo CSV date cell `2024` gives the key `2024`, which `Object.entries` lists before every other key. That ordering is not modelled.
- `fetchStooq` (src/pages/Predict.tsx:37-55) is never called. Its reader is the one `ClientFlow.CsvCloses` models.
- `trainAndPredict`'s TensorFlow model, keras and pennylane: the learned models are the functions `circuit` and `network`. Only the data each receives is modelled. The quantum model's own standardisation of its input (server/app.py:69-70) is not modelled.
- Model loading reads the file system: `Predictor.LoadModels` takes the file checks as booleans.
- Training loops, optimisers and saving the weights in server/train.py and server/train_qlstm.py.
- The randomness of `np.random.shuffle`: it is given as a sequence of transpositions.
- Preprocess (`Windowing.Preprocess`): takes the standard deviation as a parameter and does not compute it, because a square root has no exact real form here. The division by it, with a zero deviation read as 1, is stated.
- UI rendering, toasts, Login, Settings, AppSidebar, App and fastapi_server.py.
- The UTF-8 decoding of `/predict-file` uploads: the content is a string, so a byte-order mark arrives as U+FEFF, which `Text.Strip` keeps.
- Python's `int()` raising on an infinite volume.
- HandlePredict (`ClientFlow.HandlePredict`): both `normalizeRange` calls of one click are taken to return the same range. The second one repeats the first-trade-date request, which could answer differently.

## Findings

| source | as written | input that shows it | evidently intended | confidence | as-written member | corrected member |
|---|---|---|---|---|---|---|
| src/pages/Predict.tsx:336-344 | a provider of the client cascade that throws (`fetchYahoo` rejecting on a failed request) aborts the cascade; the later providers are never tried | the chart request fails and Stooq would return one valid row: the page shows "Unable to generate prediction" | a failing provider is passed over like an empty one | not executed | ClientFlow.ThrowingProviderStopsCascade | ClientFlow.IntendedCascade |
| src/pages/Predict.tsx:334-361 | when the server is unreachable, the second `fetchWithTimeout` request (line 334) rejects before the `!data2` test at line 336, so the `catch` at line 360 shows the error and the providers are never consulted | the server is down and the chart API returns rows: the page shows an error | no answer from the server hands over to the providers, like an error reply | not executed | ClientFlow.UnreachableServerFailsClick | ClientFlow.IntendedHandlePredict |
