/** The OHLCV CSV reader of the charts page: column location by header
    substring, per-line row parsing, and the business-day split of a date. */
module Charts {
  import opened Wrappers
  import opened Seqs
  import opened Text
  import opened Numbers
  import opened Calendar

  /** One chart row; every numeric field is a JavaScript number. */
  datatype Row = Row(time: string, open: Num, high: Num, low: Num, close: Num, volume: Num)

  /** Column positions found in the header; -1 marks a missing column. */
  datatype Columns = Columns(date: int, open: int, high: int, low: int, close: int, volume: int)

  /** Cell `i` of `cells` is the first whose trimmed, lower-cased text
      contains `key`, or `i` is -1 and no cell does. */
  predicate FirstContaining(cells: seq<string>, key: string, i: int)
  {
    && -1 <= i < |cells|
    && (i == -1 <==> forall j :: 0 <= j < |cells| ==> !Contains(Lower(Trim(cells[j])), key))
    && (i >= 0 ==> Contains(Lower(Trim(cells[i])), key)
                   && forall j :: 0 <= j < i ==> !Contains(Lower(Trim(cells[j])), key))
  }

  /** Locates the columns from the header line: for each field the first
      header cell containing its key, case-insensitively after trimming. */
  function LocateColumns(headerLine: string): (c: Columns)
    ensures FirstContaining(Split(headerLine, ','), "date", c.date)
    ensures FirstContaining(Split(headerLine, ','), "open", c.open)
    ensures FirstContaining(Split(headerLine, ','), "high", c.high)
    ensures FirstContaining(Split(headerLine, ','), "low", c.low)
    ensures FirstContaining(Split(headerLine, ','), "close", c.close)
    ensures FirstContaining(Split(headerLine, ','), "vol", c.volume)
  {
    var cells := Split(headerLine, ',');
    HeaderLookup(cells, "date");
    HeaderLookup(cells, "open");
    HeaderLookup(cells, "high");
    HeaderLookup(cells, "low");
    HeaderLookup(cells, "close");
    HeaderLookup(cells, "vol");
    Columns(HeaderIndex(cells, "date"), HeaderIndex(cells, "open"), HeaderIndex(cells, "high"),
            HeaderIndex(cells, "low"), HeaderIndex(cells, "close"), HeaderIndex(cells, "vol"))
  }

  /** `header.findIndex((h) => h.includes(key))` over the normalised cells. */
  function HeaderIndex(cells: seq<string>, key: string): int
  {
    FindContaining(NormalizeHeader(Js, cells), key)
  }

  lemma HeaderLookup(cells: seq<string>, key: string)
    ensures FirstContaining(cells, key, HeaderIndex(cells, key))
  {
    var h := NormalizeHeader(Js, cells);
    assert forall j :: 0 <= j < |cells| ==> h[j] == Lower(Trim(cells[j]));
  }

  /** `Number(cols[idx.volume] || 0)`: a missing or empty cell counts as 0. */
  function VolumeOf(cell: Option<string>): Num
  {
    if cell.None? || cell.value == "" then Finite(0.0) else JsNumber(cell)
  }

  /** One data line: kept exactly when its trimmed date is non-empty and
      open, high, low and close are numbers; the volume may still be NaN. */
  function ParseOhlcLine(line: string, c: Columns): (r: Option<Row>)
    ensures var cols := Split(line, ',');
            var date := Cell(cols, c.date);
            r.Some? <==> (&& date.Some? && Trim(date.value) != ""
                          && JsNumber(Cell(cols, c.open)).Finite?
                          && JsNumber(Cell(cols, c.high)).Finite?
                          && JsNumber(Cell(cols, c.low)).Finite?
                          && JsNumber(Cell(cols, c.close)).Finite?)
    ensures var cols := Split(line, ',');
            r.Some? ==> && r.value.time == Trim(Cell(cols, c.date).value)
                        && r.value.open == JsNumber(Cell(cols, c.open))
                        && r.value.high == JsNumber(Cell(cols, c.high))
                        && r.value.low == JsNumber(Cell(cols, c.low))
                        && r.value.close == JsNumber(Cell(cols, c.close))
    // volume: absent or blank cells give 0, any other cell is read by `Number`
    ensures var v := Cell(Split(line, ','), c.volume);
            r.Some? ==> && (v.None? ==> r.value.volume == Finite(0.0))
                        && (v.Some? && AllSpace(v.value) ==> r.value.volume == Finite(0.0))
                        && ((v.Some? && !AllSpace(v.value) && ParseDecimal(Trim(v.value)).None?)
                              ==> r.value.volume.NaN?)
                        && (v.Some? && !AllSpace(v.value) ==> r.value.volume == JsNumber(v))
  {
    var cols := Split(line, ',');
    var date := Cell(cols, c.date);
    var open := JsNumber(Cell(cols, c.open));
    var high := JsNumber(Cell(cols, c.high));
    var low := JsNumber(Cell(cols, c.low));
    var close := JsNumber(Cell(cols, c.close));
    var volume := VolumeOf(Cell(cols, c.volume));
    if open.Finite? && high.Finite? && low.Finite? && close.Finite? && date.Some? && Trim(date.value) != "" then
      Some(Row(Trim(date.value), open, high, low, close, volume))
    else None
  }

  /** An empty open, high, low or close cell reads as 0, so such a line is kept. */
  lemma EmptyPriceCellsReadAsZero(line: string, c: Columns)
    requires var cols := Split(line, ',');
             && Cell(cols, c.date).Some? && Trim(Cell(cols, c.date).value) != ""
             && Cell(cols, c.open) == Some("") && Cell(cols, c.high) == Some("")
             && Cell(cols, c.low) == Some("") && Cell(cols, c.close) == Some("")
    ensures ParseOhlcLine(line, c).Some?
    ensures var r := ParseOhlcLine(line, c).value;
            r.open == r.high == r.low == r.close == Finite(0.0)
  {
  }

  /** The per-line reader for a given column layout. */
  function LineReader(c: Columns): string -> Option<Row>
  {
    line => ParseOhlcLine(line, c)
  }

  /** `parseCsv`: the rows of the data lines, the header line excluded. */
  function ParseCsv(text: string): (r: seq<Row>)
    ensures |r| < |JsLines(text)|
  {
    var lines := JsLines(text);
    FilterMap(lines[1..], LineReader(LocateColumns(lines[0])))
  }

  /** The rows of `parseCsv` come from data lines (never the header), in
      input order, and every data line that parses contributes its row. */
  lemma ParseCsvOrigins(text: string) returns (idx: seq<nat>)
    ensures var lines := JsLines(text);
            var c := LocateColumns(lines[0]);
            var r := ParseCsv(text);
            && |idx| == |r| == CountKept(lines[1..], LineReader(c))
            && (forall k :: 0 <= k < |idx| ==>
                  1 <= idx[k] < |lines| && ParseOhlcLine(lines[idx[k]], c) == Some(r[k]))
            && (forall k, l :: 0 <= k < l < |idx| ==> idx[k] < idx[l])
  {
    var lines := JsLines(text);
    idx := FilterMapOriginsAfterFirst(lines, LineReader(LocateColumns(lines[0])));
  }

  /** The `{year, month, day}` of a chart time string. */
  datatype BusinessDay = BusinessDay(year: Num, month: Num, day: Num)

  /** `toBusinessDay`: the `-`-separated parts of `s` read as numbers. */
  function ToBusinessDay(s: string): BusinessDay
  {
    var parts := Split(s, '-');
    BusinessDay(JsNumber(Cell(parts, 0)), JsNumber(Cell(parts, 1)), JsNumber(Cell(parts, 2)))
  }

  /** On a sanitised time string, `toBusinessDay` yields exactly its year,
      month and day. */
  lemma BusinessDayOfIsoDate(s: string)
    requires IsIsoDate(s)
    ensures ToBusinessDay(s) ==
              BusinessDay(Finite(YearOf(s) as real), Finite(MonthOf(s) as real), Finite(DayOf(s) as real))
  {
    IsoParts(s);
    IsoDigitParts(s);
    var parts := Split(s, '-');
    FieldNumber(parts, 0);
    FieldNumber(parts, 1);
    FieldNumber(parts, 2);
  }

  /** An all-digit cell reads as its decimal value. */
  lemma FieldNumber(parts: seq<string>, i: nat)
    requires i < |parts| && |parts[i]| > 0 && AllDigits(parts[i])
    ensures JsNumber(Cell(parts, i)) == Finite(DigitsValue(parts[i]) as real)
  {
    DigitsParse(parts[i]);
  }
}
