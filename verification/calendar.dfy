/** Calendar dates as the app handles them: ISO `YYYY-MM-DD` strings,
    their lexicographic order, and their day numbers. */
module Calendar {
  import opened Wrappers
  import opened Text
  import opened Numbers

  /** The pattern `^\d{4}-\d{2}-\d{2}$`. */
  predicate IsIsoDate(s: string)
  {
    && |s| == 10
    && IsDigit(s[0]) && IsDigit(s[1]) && IsDigit(s[2]) && IsDigit(s[3])
    && s[4] == '-'
    && IsDigit(s[5]) && IsDigit(s[6])
    && s[7] == '-'
    && IsDigit(s[8]) && IsDigit(s[9])
  }

  /** Strict lexicographic order on strings by character code. On strings of
      the shape `IsIsoDate` this is also the order `localeCompare` gives. */
  predicate LexLess(a: string, b: string)
  {
    if |a| == 0 then |b| > 0
    else if |b| == 0 then false
    else a[0] < b[0] || (a[0] == b[0] && LexLess(a[1..], b[1..]))
  }

  lemma {:induction false} LexLessIrreflexive(a: string)
    ensures !LexLess(a, a)
  {
    if |a| > 0 {
      LexLessIrreflexive(a[1..]);
    }
  }

  lemma {:induction false} LexLessTransitive(a: string, b: string, c: string)
    requires LexLess(a, b) && LexLess(b, c)
    ensures LexLess(a, c)
  {
    if |a| > 0 && |b| > 0 && |c| > 0 && a[0] == b[0] && b[0] == c[0] {
      LexLessTransitive(a[1..], b[1..], c[1..]);
    }
  }

  lemma {:induction false} LexLessTotal(a: string, b: string)
    requires a != b
    ensures LexLess(a, b) || LexLess(b, a)
  {
    if |a| > 0 && |b| > 0 && a[0] == b[0] {
      assert a == [a[0]] + a[1..] && b == [b[0]] + b[1..];
      LexLessTotal(a[1..], b[1..]);
    }
  }

  lemma {:induction false} LexLessAsymmetric(a: string, b: string)
    requires LexLess(a, b)
    ensures !LexLess(b, a)
  {
    if |a| > 0 && |b| > 0 && a[0] == b[0] {
      LexLessAsymmetric(a[1..], b[1..]);
    }
  }

  function YearOf(s: string): nat
    requires IsIsoDate(s)
  {
    DigitsValue(s[0..4])
  }

  function MonthOf(s: string): nat
    requires IsIsoDate(s)
  {
    DigitsValue(s[5..7])
  }

  function DayOf(s: string): nat
    requires IsIsoDate(s)
  {
    DigitsValue(s[8..10])
  }

  predicate IsLeapYear(y: int)
  {
    y % 4 == 0 && (y % 100 != 0 || y % 400 == 0)
  }

  function DaysInMonth(y: int, m: int): int
    requires 1 <= m <= 12
  {
    if m == 2 then (if IsLeapYear(y) then 29 else 28)
    else if m == 4 || m == 6 || m == 9 || m == 11 then 30
    else 31
  }

  predicate ValidCivil(y: int, m: int, d: int)
  {
    1 <= m <= 12 && 1 <= d <= DaysInMonth(y, m)
  }

  /** Days since 1970-01-01 of a proleptic Gregorian date. */
  function DaysFromCivil(y: int, m: int, d: int): int
    requires 1 <= m <= 12
  {
    var y' := if m <= 2 then y - 1 else y;
    var era := y' / 400;
    var yoe := y' - era * 400;
    var mp := if m > 2 then m - 3 else m + 9;
    var doy := (153 * mp + 2) / 5 + d - 1;
    var doe := yoe * 365 + yoe / 4 - yoe / 100 + doy;
    era * 146097 + doe - 719468
  }

  /** The day number Python's `datetime.fromisoformat` gives a `YYYY-MM-DD`
      string: defined exactly when the fields name a real calendar day of a
      year from 1 on (`MINYEAR`), so `0000-01-01` and `2024-02-30` are
      errors. */
  function IsoDay(s: string): (r: Option<int>)
    ensures r.Some? <==> IsIsoDate(s) && YearOf(s) >= 1 && ValidCivil(YearOf(s), MonthOf(s), DayOf(s))
    ensures r.Some? ==> r.value == DaysFromCivil(YearOf(s), MonthOf(s), DayOf(s))
  {
    if IsIsoDate(s) && YearOf(s) >= 1 && ValidCivil(YearOf(s), MonthOf(s), DayOf(s)) then
      Some(DaysFromCivil(YearOf(s), MonthOf(s), DayOf(s)))
    else None
  }

  /** The day number V8's `new Date(s)` gives a `YYYY-MM-DD` string, at UTC
      midnight: any year, 0000 included, a month from 1 to 12 and a day from
      1 to 31, where a day past the end of its month rolls over into the
      next month. */
  function JsIsoDay(s: string): (r: Option<int>)
    ensures r.Some? <==> IsIsoDate(s) && 1 <= MonthOf(s) <= 12 && 1 <= DayOf(s) <= 31
    ensures r.Some? ==> r.value == DaysFromCivil(YearOf(s), MonthOf(s), 1) + DayOf(s) - 1
  {
    if IsIsoDate(s) && 1 <= MonthOf(s) <= 12 && 1 <= DayOf(s) <= 31 then
      Some(DaysFromCivil(YearOf(s), MonthOf(s), 1) + DayOf(s) - 1)
    else None
  }

  /** On a real calendar day the two readings agree. */
  lemma IsoDaysAgree(s: string)
    requires IsoDay(s).Some?
    ensures JsIsoDay(s) == IsoDay(s)
  {
  }

  /** The day after `(y, m, d)` on the proleptic Gregorian calendar. */
  function NextDay(y: int, m: int, d: int): (r: (int, int, int))
    requires ValidCivil(y, m, d)
    ensures ValidCivil(r.0, r.1, r.2)
  {
    if d < DaysInMonth(y, m) then (y, m, d + 1)
    else if m < 12 then (y, m + 1, 1)
    else (y + 1, 1, 1)
  }

  /** `DaysFromCivil` counts days: 1970-01-01 is day 0 and each day of the
      calendar is one more than the day before it. */
  lemma DaysFromCivilCounts(y: int, m: int, d: int)
    requires ValidCivil(y, m, d)
    ensures DaysFromCivil(1970, 1, 1) == 0
    ensures var n := NextDay(y, m, d); DaysFromCivil(n.0, n.1, n.2) == DaysFromCivil(y, m, d) + 1
  {
    if d == DaysInMonth(y, m) && m == 2 {
      MarchFollowsFebruary(y);
    }
  }

  /** The part of `DaysFromCivil` that depends on the March-based year. */
  function YearBase(y: int): int
  {
    var era := y / 400;
    var yoe := y - era * 400;
    era * 146097 + yoe * 365 + yoe / 4 - yoe / 100
  }

  /** A March-based year holds 365 days, 366 when the February at its end
      is a leap February. */
  lemma YearBaseStep(y: int)
    ensures YearBase(y + 1) == YearBase(y) + (if IsLeapYear(y + 1) then 366 else 365)
  {
    var era := y / 400;
    var yoe := y - era * 400;
    if yoe < 399 {
      WithinEra(y, era, yoe);
    } else {
      assert y + 1 == (era + 1) * 400;
      assert (y + 1) / 400 == era + 1;
    }
  }

  /** Inside one 400-year era the leap rule depends on the year of the era only. */
  lemma WithinEra(y: int, era: int, yoe: int)
    requires y == era * 400 + yoe && 0 <= yoe < 399
    ensures YearBase(y + 1) == YearBase(y) + (if IsLeapYear(y + 1) then 366 else 365)
  {
    assert y / 400 == era && (y + 1) / 400 == era;
    ModOfEra(era, yoe + 1);
    var o := yoe + 1;
    assert o / 4 - yoe / 4 == (if o % 4 == 0 then 1 else 0);
    assert o / 100 - yoe / 100 == (if o % 100 == 0 then 1 else 0);
  }

  lemma ModOfEra(era: int, o: int)
    requires 0 < o < 400
    ensures (era * 400 + o) % 4 == o % 4
    ensures (era * 400 + o) % 100 == o % 100
    ensures (era * 400 + o) % 400 == o
  {
    ModOfMultiple(era * 100, 4, o);
    ModOfMultiple(era * 4, 100, o);
    ModOfMultiple(era, 400, o);
  }

  /** Adding a multiple of `k` leaves the remainder modulo `k` unchanged. */
  lemma ModOfMultiple(q: int, k: int, o: int)
    requires k > 0
    ensures (q * k + o) % k == o % k
  {
    var x := q * k + o;
    assert x == (q + o / k) * k + o % k;
    assert 0 <= o % k < k;
    DivModUnique(x, k, q + o / k, o % k);
  }

  lemma DivModUnique(x: int, k: int, a: int, b: int)
    requires k > 0 && 0 <= b < k && x == a * k + b
    ensures x % k == b
  {
    var a', b' := x / k, x % k;
    assert (a - a') * k == b' - b;
    if a > a' {
      MulAtLeast(a - a', k);
    } else if a < a' {
      MulAtLeast(a' - a, k);
    }
  }

  lemma {:induction false} MulAtLeast(d: int, k: int)
    requires d >= 1 && k >= 0
    ensures d * k >= k
    decreases d
  {
    if d > 1 {
      MulAtLeast(d - 1, k);
      assert d * k == (d - 1) * k + k;
    }
  }

  /** The first of March follows the last day of February. */
  lemma MarchFollowsFebruary(y: int)
    ensures DaysFromCivil(y, 3, 1) == DaysFromCivil(y, 2, DaysInMonth(y, 2)) + 1
  {
    YearBaseStep(y - 1);
    assert DaysFromCivil(y, 3, 1) == YearBase(y) - 719468;
    assert DaysFromCivil(y, 2, DaysInMonth(y, 2)) == YearBase(y - 1) + 336 + DaysInMonth(y, 2) - 719468;
  }

  /** V8 reads the 30th of February 2024 as the 1st of March; Python refuses it. */
  lemma FebruaryThirtiethRollsOver()
    ensures IsoDay("2024-02-30").None?
    ensures JsIsoDay("2024-02-30") == IsoDay("2024-03-01")
  {
    var bad, good := "2024-02-30", "2024-03-01";
    assert IsIsoDate(bad) && IsIsoDate(good);
    FieldValues(bad, 2024, 2, 30);
    FieldValues(good, 2024, 3, 1);
    DaysFromCivilCounts(2024, 2, 29);
  }

  /** Python refuses year 0, which V8 accepts. */
  lemma YearZeroSplitsReaders()
    ensures IsoDay("0000-01-01").None?
    ensures JsIsoDay("0000-01-01").Some?
  {
    var s := "0000-01-01";
    assert IsIsoDate(s);
    FieldValues(s, 0, 1, 1);
  }

  /** The fields of an ISO date given digit by digit. */
  lemma FieldValues(s: string, y: nat, m: nat, d: nat)
    requires IsIsoDate(s)
    requires y == 1000 * DigitValue(s[0]) + 100 * DigitValue(s[1]) + 10 * DigitValue(s[2]) + DigitValue(s[3])
    requires m == 10 * DigitValue(s[5]) + DigitValue(s[6])
    requires d == 10 * DigitValue(s[8]) + DigitValue(s[9])
    ensures YearOf(s) == y && MonthOf(s) == m && DayOf(s) == d
  {
    IsoDigitParts(s);
    var y1, y2, y3, y4 := s[0..1], s[0..2], s[0..3], s[0..4];
    assert y1[..0] == [] && y1[0] == s[0];
    assert y2[..1] == y1 && y2[1] == s[1];
    assert y3[..2] == y2 && y3[2] == s[2];
    assert y4[..3] == y3 && y4[3] == s[3];
    assert DigitsValue(y1) == DigitValue(s[0]);
    assert DigitsValue(y2) == 10 * DigitValue(s[0]) + DigitValue(s[1]);
    assert DigitsValue(y3) == 100 * DigitValue(s[0]) + 10 * DigitValue(s[1]) + DigitValue(s[2]);
    var m1, m2 := s[5..6], s[5..7];
    assert m1[..0] == [] && m2[..1] == m1;
    assert DigitsValue(m1) == DigitValue(s[5]);
    var d1, d2 := s[8..9], s[8..10];
    assert d1[..0] == [] && d2[..1] == d1;
    assert DigitsValue(d1) == DigitValue(s[8]);
  }

  /** The year, month and day fields of an ISO date are all digits. */
  lemma IsoDigitParts(s: string)
    requires IsIsoDate(s)
    ensures AllDigits(s[0..4]) && AllDigits(s[5..7]) && AllDigits(s[8..10])
  {
    assert s[0..4] == [s[0], s[1], s[2], s[3]];
    assert s[5..7] == [s[5], s[6]];
    assert s[8..10] == [s[8], s[9]];
  }

  /** An ISO date splits at its two dashes into year, month and day. */
  lemma IsoParts(s: string)
    requires IsIsoDate(s)
    ensures Split(s, '-') == [s[0..4], s[5..7], s[8..10]]
  {
    var parts := [s[0..4], s[5..7], s[8..10]];
    assert Join(parts[2..], '-') == s[8..10];
    assert Join(parts[1..], '-') == s[5..7] + ['-'] + s[8..10];
    assert Join(parts, '-') == s;
    forall i | 0 <= i < 3 ensures '-' !in parts[i] {
      assert forall j :: 0 <= j < |parts[i]| ==> IsDigit(parts[i][j]);
    }
    SplitJoin(parts, '-');
  }
}
