/** The charts page's row canonicalisation: keep ISO-dated rows whose five
    numbers are finite, let the last row of each date win, and sort by date.
    Also the two ways the page obtains its rows, upload and fetch. */
module Sanitizer {
  import opened Wrappers
  import opened Text
  import opened Numbers
  import opened Calendar
  import opened Charts

  /** A row `sanitizeRows` keeps: an ISO date and five finite numbers. */
  predicate Valid(r: Row)
  {
    && IsIsoDate(r.time)
    && r.open.Finite? && r.high.Finite? && r.low.Finite? && r.close.Finite? && r.volume.Finite?
  }

  predicate AllValid(xs: seq<Row>)
  {
    forall i :: 0 <= i < |xs| ==> Valid(xs[i])
  }

  /** Strictly ascending dates, hence no date twice. */
  predicate StrictlySorted(xs: seq<Row>)
  {
    forall i, j :: 0 <= i < j < |xs| ==> LexLess(xs[i].time, xs[j].time)
  }

  /** The first row of `xs` dated `t`. */
  function Lookup(xs: seq<Row>, t: string): (r: Option<Row>)
    ensures r.Some? ==> r.value.time == t
    ensures r.None? <==> forall i :: 0 <= i < |xs| ==> xs[i].time != t
  {
    if |xs| == 0 then None
    else if xs[0].time == t then Some(xs[0])
    else Lookup(xs[1..], t)
  }

  /** Reference meaning of "the last occurrence wins": the last valid row of
      `rows` dated `t`, if any. */
  function LastValid(rows: seq<Row>, t: string): (r: Option<Row>)
    ensures r.None? <==> forall i :: 0 <= i < |rows| ==> !(Valid(rows[i]) && rows[i].time == t)
    ensures r.Some? ==> exists i :: && 0 <= i < |rows| && rows[i] == r.value
                                    && Valid(rows[i]) && rows[i].time == t
                                    && forall j :: i < j < |rows| ==> !(Valid(rows[j]) && rows[j].time == t)
  {
    if |rows| == 0 then None
    else
      var last := rows[|rows| - 1];
      var earlier := LastValid(rows[..|rows| - 1], t);
      if Valid(last) && last.time == t then Some(last)
      else
        assert forall i :: 0 <= i < |rows| - 1 ==> rows[..|rows| - 1][i] == rows[i];
        earlier
  }

  /** `map.set(r.time, r)` on a date-sorted list: the row replaces the one of
      its date, or is inserted in date order. */
  function Upsert(acc: seq<Row>, r: Row): (out: seq<Row>)
    requires StrictlySorted(acc)
    ensures StrictlySorted(out)
    ensures |out| > 0 && (out[0] == r || (|acc| > 0 && out[0] == acc[0]))
    ensures forall t :: Lookup(out, t) == if t == r.time then Some(r) else Lookup(acc, t)
    ensures AllValid(acc) && Valid(r) ==> AllValid(out)
    decreases |acc|
  {
    if |acc| == 0 then [r]
    else if acc[0].time == r.time then
      var out := [r] + acc[1..];
      assert forall i :: 1 <= i < |out| ==> out[i] == acc[i];
      assert forall t :: Lookup(out, t) == if t == r.time then Some(r) else Lookup(acc, t) by {
        forall t ensures Lookup(out, t) == if t == r.time then Some(r) else Lookup(acc, t) {
          if t != r.time {
            assert out[1..] == acc[1..];
          }
        }
      }
      out
    else if LexLess(r.time, acc[0].time) then
      var out := [r] + acc;
      assert StrictlySorted(out) by {
        forall i, j | 0 <= i < j < |out| ensures LexLess(out[i].time, out[j].time) {
          if i == 0 && j > 1 {
            LexLessTransitive(r.time, acc[0].time, acc[j - 1].time);
          }
        }
      }
      assert out[1..] == acc;
      out
    else
      var rest := Upsert(acc[1..], r);
      var out := [acc[0]] + rest;
      LexLessTotal(r.time, acc[0].time);
      assert StrictlySorted(out) by {
        assert LexLess(acc[0].time, rest[0].time);
        forall i, j | 0 <= i < j < |out| ensures LexLess(out[i].time, out[j].time) {
          if i == 0 && j > 1 {
            LexLessTransitive(acc[0].time, rest[0].time, rest[j - 1].time);
          }
        }
      }
      assert out[1..] == rest;
      assert forall t :: Lookup(out, t) == if t == r.time then Some(r) else Lookup(acc, t) by {
        forall t ensures Lookup(out, t) == if t == r.time then Some(r) else Lookup(acc, t) {
          if t == acc[0].time {
            LexLessIrreflexive(t);
          }
        }
      }
      out
  }

  /** `sanitizeRows`: the valid rows, one per date (the last one in input
      order), sorted strictly ascending by date. */
  function Sanitize(rows: seq<Row>): (r: seq<Row>)
    ensures StrictlySorted(r)
    ensures AllValid(r)
    ensures forall t :: Lookup(r, t) == LastValid(rows, t)
  {
    if |rows| == 0 then []
    else
      var acc := Sanitize(rows[..|rows| - 1]);
      var last := rows[|rows| - 1];
      if Valid(last) then Upsert(acc, last) else acc
  }

  /** In a strictly sorted list each row is the one found under its date. */
  lemma {:induction false} SortedLookup(xs: seq<Row>, i: nat)
    requires StrictlySorted(xs) && i < |xs|
    ensures Lookup(xs, xs[i].time) == Some(xs[i])
  {
    if i > 0 {
      assert LexLess(xs[0].time, xs[i].time);
      LexLessIrreflexive(xs[i].time);
      SortedLookup(xs[1..], i - 1);
    }
  }

  /** Every output row is the last valid input row of its date, and every
      date of a valid input row appears in the output. */
  lemma SanitizeLastWins(rows: seq<Row>)
    ensures forall i :: 0 <= i < |Sanitize(rows)| ==>
              LastValid(rows, Sanitize(rows)[i].time) == Some(Sanitize(rows)[i])
    ensures forall j :: 0 <= j < |rows| && Valid(rows[j]) ==>
              exists i :: 0 <= i < |Sanitize(rows)| && Sanitize(rows)[i].time == rows[j].time
  {
    var r := Sanitize(rows);
    forall i | 0 <= i < |r| ensures LastValid(rows, r[i].time) == Some(r[i]) {
      SortedLookup(r, i);
    }
    forall j | 0 <= j < |rows| && Valid(rows[j])
      ensures exists i :: 0 <= i < |r| && r[i].time == rows[j].time
    {
      SanitizeKeepsDate(rows, j);
    }
  }

  /** The date of a valid input row appears in the output. */
  lemma SanitizeKeepsDate(rows: seq<Row>, j: nat)
    requires j < |rows| && Valid(rows[j])
    ensures exists i :: 0 <= i < |Sanitize(rows)| && Sanitize(rows)[i].time == rows[j].time
  {
    var t := rows[j].time;
    assert LastValid(rows, t).Some?;
    assert Lookup(Sanitize(rows), t).Some?;
  }

  /** Appending a row dated after every row of a sorted list. */
  lemma {:induction false} UpsertAfterAll(acc: seq<Row>, r: Row)
    requires StrictlySorted(acc)
    requires forall i :: 0 <= i < |acc| ==> LexLess(acc[i].time, r.time)
    ensures Upsert(acc, r) == acc + [r]
    decreases |acc|
  {
    if |acc| > 0 {
      LexLessIrreflexive(r.time);
      LexLessAsymmetric(acc[0].time, r.time);
      UpsertAfterAll(acc[1..], r);
      assert acc == [acc[0]] + acc[1..];
    }
  }

  /** A list that is already valid and strictly sorted is its own sanitised form. */
  lemma {:induction false} SanitizeCanonical(xs: seq<Row>)
    requires StrictlySorted(xs) && AllValid(xs)
    ensures Sanitize(xs) == xs
    decreases |xs|
  {
    if |xs| > 0 {
      var init := xs[..|xs| - 1];
      assert StrictlySorted(init) by {
        assert forall i :: 0 <= i < |init| ==> init[i] == xs[i];
      }
      SanitizeCanonical(init);
      UpsertAfterAll(init, xs[|xs| - 1]);
      assert init + [xs[|xs| - 1]] == xs;
    }
  }

  /** `sanitizeRows` is idempotent. */
  lemma SanitizeIdempotent(rows: seq<Row>)
    ensures Sanitize(Sanitize(rows)) == Sanitize(rows)
  {
    SanitizeCanonical(Sanitize(rows));
  }

  /** What the chart shows after an upload or a fetch. */
  datatype ChartLoad = Rejected(message: string) | Loaded(rows: seq<Row>)

  predicate EndsWith(s: string, suffix: string)
  {
    |suffix| <= |s| && s[|s| - |suffix|..] == suffix
  }

  /** `handleFileUpload`: a file whose name does not end in `.csv` is
      refused; otherwise the chart gets the sanitised parse of its text. */
  function UploadFile(name: string, text: string): (r: ChartLoad)
    ensures r.Rejected? <==> !EndsWith(name, ".csv")
    ensures r.Loaded? ==> r.rows == Sanitize(ParseCsv(text))
  {
    if !EndsWith(name, ".csv") then Rejected("Upload a CSV file")
    else Loaded(Sanitize(ParseCsv(text)))
  }

  /** `handleFetch`: the `rows` array of the server's reply (None when the
      reply has none or the request throws). An empty or missing array is a
      failure; otherwise the chart gets its sanitised form, which may be empty. */
  function FetchRows(reply: Option<seq<Row>>): (r: ChartLoad)
    ensures r.Rejected? <==> (reply.None? || |reply.value| == 0)
    ensures r.Loaded? ==> r.rows == Sanitize(reply.value)
  {
    match reply
    case None => Rejected("Fetch failed. Upload CSV instead.")
    case Some(rows) =>
      if |rows| == 0 then Rejected("Fetch failed. Upload CSV instead.")
      else Loaded(Sanitize(rows))
  }
}
