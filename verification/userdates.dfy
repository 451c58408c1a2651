/** The prediction page's date inputs: `parseUserDate`, which rewrites a few
    common notations into `YYYY-MM-DD`, and `normalizeRange`, which turns the
    two optional inputs into a range that ends no later than today. */
module UserDates {
  import opened Wrappers
  import opened Text
  import opened Numbers
  import opened Calendar

  /** `lo` to `hi` ASCII digits: the regular expression `[0-9]{lo,hi}`. */
  predicate DigitRun(s: string, lo: nat, hi: nat)
  {
    lo <= |s| <= hi && AllDigits(s)
  }

  /** `^(\d{2})-(\d{2})-(\d{4})$`, stated on the `-`-separated pieces. */
  predicate DayFirst(p: seq<string>)
  {
    |p| == 3 && DigitRun(p[0], 2, 2) && DigitRun(p[1], 2, 2) && DigitRun(p[2], 4, 4)
  }

  /** `^([0-9]{4})[/-]([0-9]{1,2})[/-]([0-9]{1,2})$`, stated on the pieces
      between separators once every `/` reads as `-`. */
  predicate YearFirst(p: seq<string>)
  {
    |p| == 3 && DigitRun(p[0], 4, 4) && DigitRun(p[1], 1, 2) && DigitRun(p[2], 1, 2)
  }

  /** `^([0-9]{1,2})\/([0-9]{1,2})\/([0-9]{4})$`, stated on the `/`-separated pieces. */
  predicate MonthFirst(p: seq<string>)
  {
    |p| == 3 && DigitRun(p[0], 1, 2) && DigitRun(p[1], 1, 2) && DigitRun(p[2], 4, 4)
  }

  /** Reads either separator of the year-first pattern as `-`. */
  function SlashToDash(s: string): (r: string)
    ensures |r| == |s|
    ensures forall i :: 0 <= i < |s| ==> r[i] == (if s[i] == '/' then '-' else s[i])
  {
    seq(|s|, i requires 0 <= i < |s| => if s[i] == '/' then '-' else s[i])
  }

  /** `String(parseInt(d, 10)).padStart(2, "0")`. */
  function PadTwo(d: string): (r: string)
    requires DigitRun(d, 1, 2)
    ensures r == if |d| == 1 then "0" + d else d
    ensures DigitRun(r, 2, 2)
  {
    TwoDigitNormalForm(d);
    assert |d| == 1 ==> ("0" + d)[0] == '0' && ("0" + d)[1] == d[0];
    PadZero(NatToDecimal(DigitsValue(d)), 2)
  }

  /** `y-m-d` as one string. */
  function Dashed(y: string, m: string, d: string): string
  {
    y + "-" + m + "-" + d
  }

  /** `parseUserDate`: an empty input stays empty; `DD-MM-YYYY` becomes
      `YYYY-MM-DD` by reordering; `YYYY-M-D` (either separator) is zero-padded;
      `M/D/YYYY` is read day first when its first number exceeds 12; anything
      else is returned unchanged. Every rewrite has the `YYYY-MM-DD` shape. */
  function ParseUserDate(s: string): (r: string)
    ensures s == "" <==> r == ""
    ensures r == s || IsIsoDate(r)
    ensures (!DayFirst(Split(s, '-')) && !YearFirst(Split(SlashToDash(s), '-')) && !MonthFirst(Split(s, '/')))
              ==> r == s
  {
    if s == "" then ""
    else
      var dash := Split(s, '-');
      if DayFirst(dash) then FromDayFirst(dash)
      else
        var mixed := Split(SlashToDash(s), '-');
        if YearFirst(mixed) then FromYearFirst(mixed)
        else
          var slash := Split(s, '/');
          if MonthFirst(slash) then FromMonthFirst(slash)
          else s
  }

  /** The rewrite of `DD-MM-YYYY`: the pieces in reverse order. */
  function FromDayFirst(p: seq<string>): (r: string)
    requires DayFirst(p)
    ensures IsIsoDate(r)
  {
    IsoOfDashed(p[2], p[1], p[0]);
    Dashed(p[2], p[1], p[0])
  }

  /** The rewrite of `YYYY-M-D`: month and day zero-padded. */
  function FromYearFirst(p: seq<string>): (r: string)
    requires YearFirst(p)
    ensures IsIsoDate(r)
  {
    IsoOfDashed(p[0], PadTwo(p[1]), PadTwo(p[2]));
    Dashed(p[0], PadTwo(p[1]), PadTwo(p[2]))
  }

  /** The rewrite of `M/D/YYYY`: a first number above 12 is the day. */
  function FromMonthFirst(p: seq<string>): (r: string)
    requires MonthFirst(p)
    ensures IsIsoDate(r)
  {
    var dayFirst := DigitsValue(p[0]) > 12;
    var mm := PadTwo(if dayFirst then p[1] else p[0]);
    var dd := PadTwo(if dayFirst then p[0] else p[1]);
    IsoOfDashed(p[2], mm, dd);
    Dashed(p[2], mm, dd)
  }

  /** Four, two and two digits joined by dashes have the ISO shape. */
  lemma IsoOfDashed(y: string, m: string, d: string)
    requires DigitRun(y, 4, 4) && DigitRun(m, 2, 2) && DigitRun(d, 2, 2)
    ensures IsIsoDate(Dashed(y, m, d))
  {
    var s := Dashed(y, m, d);
    assert s[0] == y[0] && s[1] == y[1] && s[2] == y[2] && s[3] == y[3];
    assert s[5] == m[0] && s[6] == m[1] && s[8] == d[0] && s[9] == d[1];
  }

  /** Three separator-free parts joined by one separator split back into them. */
  lemma SplitThree(a: string, b: string, c: string, sep: char)
    requires sep !in a && sep !in b && sep !in c
    ensures Split(a + [sep] + b + [sep] + c, sep) == [a, b, c]
  {
    JoinThree([a, b, c], sep);
    SplitJoin([a, b, c], sep);
  }

  /** A digit run holds no separator. */
  lemma NoSeparator(s: string, lo: nat, hi: nat)
    requires DigitRun(s, lo, hi)
    ensures '-' !in s && '/' !in s
  {
    assert forall i :: 0 <= i < |s| ==> s[i] != '-' && s[i] != '/';
  }

  /** Whenever the day-first pattern matches, the third character is a dash. */
  lemma DayFirstDash(s: string)
    requires DayFirst(Split(s, '-'))
    ensures |s| == 10 && s[2] == '-'
  {
    DayFirstJoinDash(Split(s, '-'));
  }

  lemma DayFirstJoinDash(p: seq<string>)
    requires DayFirst(p)
    ensures |Join(p, '-')| == 10 && Join(p, '-')[2] == '-'
  {
    var head, tail := p[0] + "-", p[1] + "-" + p[2];
    assert Join(p, '-') == head + tail by {
      JoinThree(p, '-');
    }
    assert |head| == 3 && |tail| == 7 && head[2] == '-';
  }

  /** `DD-MM-YYYY` becomes `YYYY-MM-DD`. */
  lemma DayFirstRewrite(dd: string, mm: string, yyyy: string)
    requires DigitRun(dd, 2, 2) && DigitRun(mm, 2, 2) && DigitRun(yyyy, 4, 4)
    ensures ParseUserDate(dd + "-" + mm + "-" + yyyy) == yyyy + "-" + mm + "-" + dd
  {
    NoSeparator(dd, 2, 2);
    NoSeparator(mm, 2, 2);
    NoSeparator(yyyy, 4, 4);
    SplitThree(dd, mm, yyyy, '-');
  }

  /** A string whose third character is no dash does not match the
      day-first pattern. */
  lemma NotDayFirst(s: string)
    requires |s| < 3 || s[2] != '-'
    ensures !DayFirst(Split(s, '-'))
  {
    if DayFirst(Split(s, '-')) {
      DayFirstDash(s);
    }
  }

  /** `YYYY-M-D` and `YYYY/M/D` (and mixed separators) are zero-padded. */
  lemma YearFirstRewrite(yyyy: string, m: string, d: string, c1: char, c2: char)
    requires DigitRun(yyyy, 4, 4) && DigitRun(m, 1, 2) && DigitRun(d, 1, 2)
    requires (c1 == '-' || c1 == '/') && (c2 == '-' || c2 == '/')
    ensures ParseUserDate(yyyy + [c1] + m + [c2] + d) == yyyy + "-" + PadTwo(m) + "-" + PadTwo(d)
  {
    var s := yyyy + [c1] + m + [c2] + d;
    assert !DayFirst(Split(s, '-')) by {
      assert s[2] == yyyy[2];
      NotDayFirst(s);
    }
    assert Split(SlashToDash(s), '-') == [yyyy, m, d] by {
      SeparatorsToDash(yyyy, m, d, c1, c2);
      NoSeparator(yyyy, 4, 4);
      NoSeparator(m, 1, 2);
      NoSeparator(d, 1, 2);
      SplitThree(yyyy, m, d, '-');
    }
    var mixed := [yyyy, m, d];
    assert YearFirst(mixed);
    assert ParseUserDate(s) == FromYearFirst(mixed);
  }

  /** Reading separators as dashes. */
  lemma SeparatorsToDash(a: string, b: string, c: string, c1: char, c2: char)
    requires '/' !in a && '/' !in b && '/' !in c
    requires (c1 == '-' || c1 == '/') && (c2 == '-' || c2 == '/')
    ensures SlashToDash(a + [c1] + b + [c2] + c) == a + "-" + b + "-" + c
  {
    var s, t := a + [c1] + b + [c2] + c, a + "-" + b + "-" + c;
    forall i | 0 <= i < |s| ensures SlashToDash(s)[i] == t[i] {
      if i < |a| {
        assert s[i] == a[i] == t[i];
      } else if i == |a| {
      } else if i < |a| + 1 + |b| {
        assert s[i] == b[i - |a| - 1] == t[i];
      } else if i == |a| + 1 + |b| {
      } else {
        assert s[i] == c[i - |a| - 2 - |b|] == t[i];
      }
    }
  }

  /** `M/D/YYYY` is read month first unless the first number exceeds 12. */
  lemma MonthFirstRewrite(a: string, b: string, yyyy: string)
    requires DigitRun(a, 1, 2) && DigitRun(b, 1, 2) && DigitRun(yyyy, 4, 4)
    ensures var dayFirst := DigitsValue(a) > 12;
            ParseUserDate(a + "/" + b + "/" + yyyy)
              == yyyy + "-" + PadTwo(if dayFirst then b else a) + "-" + PadTwo(if dayFirst then a else b)
  {
    var s := a + "/" + b + "/" + yyyy;
    SlashedNotDayFirst(a, b, yyyy);
    SlashedNotYearFirst(a, b, yyyy);
    SlashedSplit(a, b, yyyy);
    var slash := [a, b, yyyy];
    assert MonthFirst(slash);
    assert ParseUserDate(s) == FromMonthFirst(slash);
  }

  lemma SlashedNotDayFirst(a: string, b: string, yyyy: string)
    requires DigitRun(a, 1, 2) && DigitRun(b, 1, 2) && DigitRun(yyyy, 4, 4)
    ensures !DayFirst(Split(a + "/" + b + "/" + yyyy, '-'))
  {
    var s := a + "/" + b + "/" + yyyy;
    assert s[|a|] == '/';
    if |a| == 1 {
      assert s[2] == b[0];
      NoSeparator(b, 1, 2);
    }
    NotDayFirst(s);
  }

  lemma SlashedNotYearFirst(a: string, b: string, yyyy: string)
    requires DigitRun(a, 1, 2) && DigitRun(b, 1, 2) && DigitRun(yyyy, 4, 4)
    ensures !YearFirst(Split(SlashToDash(a + "/" + b + "/" + yyyy), '-'))
  {
    NoSeparator(a, 1, 2);
    NoSeparator(b, 1, 2);
    NoSeparator(yyyy, 4, 4);
    SeparatorsToDash(a, b, yyyy, '/', '/');
    SplitThree(a, b, yyyy, '-');
  }

  lemma SlashedSplit(a: string, b: string, yyyy: string)
    requires DigitRun(a, 1, 2) && DigitRun(b, 1, 2) && DigitRun(yyyy, 4, 4)
    ensures Split(a + "/" + b + "/" + yyyy, '/') == [a, b, yyyy]
  {
    NoSeparator(a, 1, 2);
    NoSeparator(b, 1, 2);
    NoSeparator(yyyy, 4, 4);
    SplitThree(a, b, yyyy, '/');
  }

  /** A string already of the form `YYYY-MM-DD` comes back unchanged. */
  lemma IsoDateFixed(s: string)
    requires IsIsoDate(s)
    ensures ParseUserDate(s) == s
  {
    var p := [s[0..4], s[5..7], s[8..10]];
    IsoParts(s);
    IsoDigitParts(s);
    assert !DayFirst(p);
    assert SlashToDash(s) == s by {
      assert '/' !in s;
    }
    assert YearFirst(p);
    assert s == Dashed(p[0], p[1], p[2]);
  }

  /** `parseUserDate` is idempotent. */
  lemma ParseUserDateIdempotent(s: string)
    ensures ParseUserDate(ParseUserDate(s)) == ParseUserDate(s)
  {
    var r := ParseUserDate(s);
    if r != s {
      IsoDateFixed(r);
    }
  }

  /** The outcome of the first-trade-date lookup: it threw, or the reply
      carried `firstTradeDate` (epoch seconds) or not. */
  datatype Meta = MetaFailed | MetaOk(firstTradeSeconds: Option<int>)

  /** The first-trade day number; a failed lookup, a missing field and the
      falsy value 0 all leave it unknown. */
  function FirstTradeDay(meta: Meta): (r: Option<int>)
    ensures r.Some? <==> meta.MetaOk? && meta.firstTradeSeconds.Some? && meta.firstTradeSeconds.value != 0
    ensures r.Some? ==> r.value * 86400 <= meta.firstTradeSeconds.value < (r.value + 1) * 86400
  {
    match meta
    case MetaOk(Some(secs)) => if secs != 0 then Some(secs / 86400) else None
    case _ => None
  }

  /** A date range as day numbers, both ends inclusive. */
  datatype DateRange = DateRange(start: int, end: int)

  /** One bound as `normalizeRange` reads it: absent when the rewritten input
      is empty, otherwise the day number `new Date` gives it; a string that
      names no date makes the later `toISOString` throw. */
  function ReadBound(x: string): (r: Result<Option<int>, string>)
    ensures r.Ok? && r.value.None? <==> x == ""
    ensures r.Ok? && r.value.Some? <==> x != "" && JsIsoDay(ParseUserDate(x)).Some?
    ensures r.Ok? && r.value.Some? ==> r.value == JsIsoDay(ParseUserDate(x))
  {
    var iso := ParseUserDate(x);
    if iso == "" then Ok(None)
    else
      match JsIsoDay(iso)
      case None => Err("invalid_date")
      case Some(d) => Ok(Some(d))
  }


  /** `normalizeRange`, with `now` and "one year before now" given as day
      numbers: swap reversed bounds, default a missing start to the first
      trade day (else a year ago) and a missing end to today, raise the start
      to the first trade day, cap the end at today and lower the start to the
      end. */
  function NormalizeRange(s: string, e: string, now: int, yearAgo: int, meta: Meta): (r: Result<DateRange, string>)
    ensures r.Err? <==> ReadBound(s).Err? || ReadBound(e).Err?
    ensures r.Ok? ==> r.value.start <= r.value.end <= now
    // the end: the later given bound, else today, capped at today
    ensures r.Ok? ==>
              var given := if e == "" then now
                           else if s == "" then ReadBound(e).value.value
                           else Max(ReadBound(s).value.value, ReadBound(e).value.value);
              r.value.end == Min(now, given)
    // the start: the earlier given bound, else the first trade day, else a
    // year ago; raised to the first trade day; lowered to the end
    ensures r.Ok? ==>
              var first := FirstTradeDay(meta);
              var given := if s == "" then None
                           else if e == "" then ReadBound(s).value
                           else Some(Min(ReadBound(s).value.value, ReadBound(e).value.value));
              var wanted := if given.Some? then given.value else if first.Some? then first.value else yearAgo;
              var raised := if first.Some? then Max(wanted, first.value) else wanted;
              r.value.start == Min(raised, r.value.end)
  {
    match (ReadBound(s), ReadBound(e))
    case (Err(m), _) => Err(m)
    case (_, Err(m)) => Err(m)
    case (Ok(sd), Ok(ed)) => Ok(Clamp(sd, ed, FirstTradeDay(meta), now, yearAgo))
  }

  /** The range of two parsed bounds (None for a blank one): ordered,
    * defaulted, raised to the first trade day and capped at today. */
  function Clamp(sd: Option<int>, ed: Option<int>, first: Option<int>, now: int, yearAgo: int): (r: DateRange)
    ensures r.start <= r.end <= now
    ensures r.end == Min(now, if ed.None? then now else if sd.None? then ed.value else Max(sd.value, ed.value))
    ensures var given := if sd.None? then None else if ed.None? then sd else Some(Min(sd.value, ed.value));
            var wanted := if given.Some? then given.value else if first.Some? then first.value else yearAgo;
            var raised := if first.Some? then Max(wanted, first.value) else wanted;
            r.start == Min(raised, r.end)
  {
    var swap := sd.Some? && ed.Some? && sd.value > ed.value;
    var s0 := if swap then ed else sd;
    var e0 := if swap then sd else ed;
    var s1 := if s0.Some? then s0.value else if first.Some? then first.value else yearAgo;
    var e1 := if e0.Some? then e0.value else now;
    var s2 := if first.Some? && s1 < first.value then first.value else s1;
    var e2 := if e1 > now then now else e1;
    var s3 := if s2 > e2 then e2 else s2;
    DateRange(s3, e2)
  }

  /** Given both bounds, their order does not matter. */
  lemma NormalizeRangeSymmetric(s: string, e: string, now: int, yearAgo: int, meta: Meta)
    requires s != "" && e != ""
    ensures NormalizeRange(s, e, now, yearAgo, meta) == NormalizeRange(e, s, now, yearAgo, meta)
  {
    match (ReadBound(s), ReadBound(e))
    case (Ok(a), Ok(b)) =>
      ClampSymmetric(a.value, b.value, FirstTradeDay(meta), now, yearAgo);
    case _ =>
  }

  lemma ClampSymmetric(a: int, b: int, first: Option<int>, now: int, yearAgo: int)
    ensures Clamp(Some(a), Some(b), first, now, yearAgo) == Clamp(Some(b), Some(a), first, now, yearAgo)
  {
  }

  /** A range already inside [first trade day, today] is returned as given. */
  lemma NormalizeRangeKeepsValidRange(s: string, e: string, now: int, yearAgo: int, meta: Meta)
    requires JsIsoDay(ParseUserDate(s)).Some? && JsIsoDay(ParseUserDate(e)).Some?
    requires var a := JsIsoDay(ParseUserDate(s)).value;
             var b := JsIsoDay(ParseUserDate(e)).value;
             && a <= b <= now
             && (FirstTradeDay(meta).None? || FirstTradeDay(meta).value <= a)
    ensures NormalizeRange(s, e, now, yearAgo, meta)
              == Ok(DateRange(JsIsoDay(ParseUserDate(s)).value, JsIsoDay(ParseUserDate(e)).value))
  {
    ReadBoundOfDay(s);
    ReadBoundOfDay(e);
    ClampKeepsRange(JsIsoDay(ParseUserDate(s)).value, JsIsoDay(ParseUserDate(e)).value, FirstTradeDay(meta), now, yearAgo);
  }

  lemma ReadBoundOfDay(x: string)
    requires JsIsoDay(ParseUserDate(x)).Some?
    ensures ReadBound(x) == Ok(JsIsoDay(ParseUserDate(x)))
  {
    assert x != "";
  }

  lemma ClampKeepsRange(a: int, b: int, first: Option<int>, now: int, yearAgo: int)
    requires a <= b <= now && (first.None? || first.value <= a)
    ensures Clamp(Some(a), Some(b), first, now, yearAgo) == DateRange(a, b)
  {
  }
}
