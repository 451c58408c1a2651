/** String operations the readers rely on: whitespace trimming, ASCII case
    mapping, substring search, splitting on a separator and line splitting. */
module Text {
  import opened Wrappers

  /** Whitespace as JavaScript's `trim()` sees it: the WhiteSpace and
      LineTerminator characters of the ECMAScript grammar (ASCII tab, line
      feed, vertical tab, form feed, carriage return and space, the no-break
      space, the byte-order mark, the Unicode space separators, and the line
      and paragraph separators). */
  predicate IsSpace(c: char)
  {
    c == ' ' || c == '\t' || c == '\n' || c == '\r' || c == '\U{000B}' || c == '\U{000C}'
    || c == '\U{00A0}' || c == '\U{FEFF}' || IsUnicodeSpace(c)
  }

  /** Whitespace as Python's `str.strip()` and `float()` see it: ASCII
      whitespace, the information separators U+001C to U+001F, the next-line
      character U+0085, the no-break space and the Unicode space separators
      and line and paragraph separators, but not the byte-order mark. */
  predicate IsPySpace(c: char)
  {
    c == ' ' || c == '\t' || c == '\n' || c == '\r' || c == '\U{000B}' || c == '\U{000C}'
    || ('\U{001C}' <= c <= '\U{001F}') || c == '\U{0085}' || c == '\U{00A0}' || IsUnicodeSpace(c)
  }

  /** The space characters above U+00FF that both runtimes strip. */
  predicate IsUnicodeSpace(c: char)
  {
    c == '\U{1680}' || ('\U{2000}' <= c <= '\U{200A}') || c == '\U{2028}' || c == '\U{2029}'
    || c == '\U{202F}' || c == '\U{205F}' || c == '\U{3000}'
  }

  /** Which runtime's notion of whitespace a trim uses. */
  datatype Runtime = Js | Py

  predicate SpaceIn(rt: Runtime, c: char)
  {
    match rt
    case Js => IsSpace(c)
    case Py => IsPySpace(c)
  }

  predicate AllSpaceIn(rt: Runtime, s: string)
  {
    forall i :: 0 <= i < |s| ==> SpaceIn(rt, s[i])
  }

  predicate AllSpace(s: string)
  {
    AllSpaceIn(Js, s)
  }

  predicate AllPySpace(s: string)
  {
    AllSpaceIn(Py, s)
  }

  /** Drops leading whitespace. */
  function TrimLeft(rt: Runtime, s: string): (r: string)
    ensures |r| <= |s| && r == s[|s| - |r|..]
    ensures AllSpaceIn(rt, s[..|s| - |r|])
    ensures r == [] || !SpaceIn(rt, r[0])
  {
    if |s| > 0 && SpaceIn(rt, s[0]) then TrimLeft(rt, s[1..]) else s
  }

  /** Drops trailing whitespace. */
  function TrimRight(rt: Runtime, s: string): (r: string)
    ensures |r| <= |s| && r == s[..|r|]
    ensures AllSpaceIn(rt, s[|r|..])
    ensures r == [] || !SpaceIn(rt, r[|r| - 1])
  {
    if |s| > 0 && SpaceIn(rt, s[|s| - 1]) then
      var r := TrimRight(rt, s[..|s| - 1]);
      assert s[|r|..] == s[..|s| - 1][|r|..] + [s[|s| - 1]];
      r
    else s
  }

  /** Both ends of `s` stripped of the runtime's whitespace. */
  function TrimIn(rt: Runtime, s: string): (r: string)
    ensures r == [] || (!SpaceIn(rt, r[0]) && !SpaceIn(rt, r[|r| - 1]))
    ensures r == [] <==> AllSpaceIn(rt, s)
  {
    var t := TrimLeft(rt, s);
    assert AllSpaceIn(rt, s) ==> t == [];
    TrimRight(rt, t)
  }

  /** Trimming takes off exactly an all-space prefix and an all-space
      suffix: what remains is a slice of the input. */
  lemma TrimInSlice(rt: Runtime, s: string) returns (a: nat, b: nat)
    ensures a <= b <= |s| && TrimIn(rt, s) == s[a..b]
    ensures AllSpaceIn(rt, s[..a]) && AllSpaceIn(rt, s[b..])
  {
    var t := TrimLeft(rt, s);
    var r := TrimRight(rt, t);
    a := |s| - |t|;
    b := a + |r|;
    assert s[b..] == t[|r|..];
  }

  /** Text that neither starts nor ends with a space is its own trim. */
  lemma TrimInFixed(rt: Runtime, s: string)
    requires s == [] || (!SpaceIn(rt, s[0]) && !SpaceIn(rt, s[|s| - 1]))
    ensures TrimIn(rt, s) == s
  {
    TrimLeftFixed(rt, s);
    TrimRightFixed(rt, s);
  }

  lemma TrimLeftFixed(rt: Runtime, s: string)
    requires s == [] || !SpaceIn(rt, s[0])
    ensures TrimLeft(rt, s) == s
  {
  }

  lemma TrimRightFixed(rt: Runtime, s: string)
    requires s == [] || !SpaceIn(rt, s[|s| - 1])
    ensures TrimRight(rt, s) == s
  {
  }

  /** A leading space is dropped by the left trim. */
  lemma TrimLeftSkip(rt: Runtime, c: char, t: string)
    requires SpaceIn(rt, c)
    ensures TrimLeft(rt, [c] + t) == TrimLeft(rt, t)
  {
    assert ([c] + t)[1..] == t;
  }

  /** JavaScript `s.trim()`. */
  function Trim(s: string): (r: string)
    ensures r == [] || (!IsSpace(r[0]) && !IsSpace(r[|r| - 1]))
    ensures r == [] <==> AllSpace(s)
  {
    TrimIn(Js, s)
  }

  /** Python `s.strip()` with no argument. */
  function Strip(s: string): (r: string)
    ensures r == [] || (!IsPySpace(r[0]) && !IsPySpace(r[|r| - 1]))
    ensures r == [] <==> AllPySpace(s)
  {
    TrimIn(Py, s)
  }

  /** The byte-order mark is where the two trims part: before text that
      neither starts nor ends with a space, JavaScript drops it and Python
      keeps it. */
  lemma TrimsDifferOnByteOrderMark(t: string)
    requires t != [] && !IsSpace(t[0]) && !IsSpace(t[|t| - 1]) && !IsPySpace(t[|t| - 1])
    ensures Trim(['\U{FEFF}'] + t) == t
    ensures Strip(['\U{FEFF}'] + t) == ['\U{FEFF}'] + t
  {
    JsTrimDropsByteOrderMark(t);
    PyStripKeepsByteOrderMark(t);
  }

  lemma JsTrimDropsByteOrderMark(t: string)
    requires t != [] && !IsSpace(t[0]) && !IsSpace(t[|t| - 1])
    ensures Trim(['\U{FEFF}'] + t) == t
  {
    TrimLeftSkip(Js, '\U{FEFF}', t);
    TrimLeftFixed(Js, t);
    TrimRightFixed(Js, t);
  }

  lemma PyStripKeepsByteOrderMark(t: string)
    requires t != [] && !IsPySpace(t[|t| - 1])
    ensures Strip(['\U{FEFF}'] + t) == ['\U{FEFF}'] + t
  {
    var s := ['\U{FEFF}'] + t;
    assert s[|s| - 1] == t[|t| - 1];
    TrimInFixed(Py, s);
  }

  function LowerChar(c: char): char
  {
    if 'A' <= c <= 'Z' then (c as int + 32) as char else c
  }

  function UpperChar(c: char): char
  {
    if 'a' <= c <= 'z' then (c as int - 32) as char else c
  }

  /** `toLowerCase()` / `lower()` on the ASCII letters. */
  function Lower(s: string): (r: string)
    ensures |r| == |s|
    ensures forall i :: 0 <= i < |s| ==> r[i] == LowerChar(s[i])
  {
    seq(|s|, i requires 0 <= i < |s| => LowerChar(s[i]))
  }

  /** `toUpperCase()` / `upper()` on the ASCII letters. */
  function Upper(s: string): (r: string)
    ensures |r| == |s|
    ensures forall i :: 0 <= i < |s| ==> r[i] == UpperChar(s[i])
  {
    seq(|s|, i requires 0 <= i < |s| => UpperChar(s[i]))
  }

  /** `needle` occurs in `hay` starting at position `i`. */
  predicate OccursAt(hay: string, needle: string, i: int)
  {
    0 <= i && i + |needle| <= |hay| && hay[i..i + |needle|] == needle
  }

  /** JavaScript `hay.includes(needle)`: true exactly when the needle occurs
      somewhere in the haystack. */
  function Contains(hay: string, needle: string): (r: bool)
    ensures r <==> exists i :: OccursAt(hay, needle, i)
    decreases |hay|
  {
    if |needle| <= |hay| && hay[..|needle|] == needle then
      assert OccursAt(hay, needle, 0);
      true
    else if |hay| == 0 then
      assert forall i :: !OccursAt(hay, needle, i);
      false
    else
      var rest := Contains(hay[1..], needle);
      assert forall i :: OccursAt(hay[1..], needle, i) <==> OccursAt(hay, needle, i + 1) by {
        forall i ensures OccursAt(hay[1..], needle, i) <==> OccursAt(hay, needle, i + 1) {
          if 0 <= i && i + |needle| <= |hay[1..]| {
            assert hay[1..][i..i + |needle|] == hay[i + 1..i + 1 + |needle|];
          }
        }
      }
      assert !OccursAt(hay, needle, 0);
      assert (exists i :: OccursAt(hay, needle, i)) ==> exists i :: OccursAt(hay[1..], needle, i) by {
        if exists i :: OccursAt(hay, needle, i) {
          var i :| OccursAt(hay, needle, i);
          assert i > 0;
          assert OccursAt(hay[1..], needle, i - 1);
        }
      }
      rest
  }

  /** Index of the first occurrence of `c` in `s`, if any. */
  function FirstIndexOf(s: string, c: char): (r: Option<nat>)
    ensures r.None? <==> c !in s
    ensures r.Some? ==> r.value < |s| && s[r.value] == c && c !in s[..r.value]
  {
    if |s| == 0 then None
    else if s[0] == c then Some(0)
    else
      match FirstIndexOf(s[1..], c)
      case None => None
      case Some(k) =>
        assert s[..k + 1] == [s[0]] + s[1..][..k];
        Some(k + 1)
  }

  /** Joins non-empty `parts` with `sep` between consecutive parts. */
  function Join(parts: seq<string>, sep: char): string
    requires |parts| >= 1
  {
    if |parts| == 1 then parts[0] else parts[0] + [sep] + Join(parts[1..], sep)
  }

  /** JavaScript `s.split(sep)` / Python `s.split(sep)` for a one-character
      separator: the maximal separator-free pieces, at least one. */
  function Split(s: string, sep: char): (r: seq<string>)
    ensures |r| >= 1
    ensures forall i :: 0 <= i < |r| ==> sep !in r[i]
    ensures Join(r, sep) == s
    decreases |s|
  {
    match FirstIndexOf(s, sep)
    case None => [s]
    case Some(k) =>
      var rest := Split(s[k + 1..], sep);
      assert s == s[..k] + [sep] + s[k + 1..];
      assert ([s[..k]] + rest)[1..] == rest;
      [s[..k]] + rest
  }

  /** Splitting undoes joining: the pieces of a join are the joined parts
      when no part contains the separator. */
  lemma {:induction false} SplitJoin(parts: seq<string>, sep: char)
    requires |parts| >= 1
    requires forall i :: 0 <= i < |parts| ==> sep !in parts[i]
    ensures Split(Join(parts, sep), sep) == parts
    decreases |parts|
  {
    var s := Join(parts, sep);
    if |parts| == 1 {
      assert FirstIndexOf(s, sep).None?;
    } else {
      var k := |parts[0]|;
      var rest := Join(parts[1..], sep);
      assert s == parts[0] + [sep] + rest;
      FirstIndexAfterPiece(parts[0], sep, rest);
      assert s[..k] == parts[0] && s[k + 1..] == rest;
      assert Split(s, sep) == [parts[0]] + Split(rest, sep);
      SplitJoin(parts[1..], sep);
      assert parts == [parts[0]] + parts[1..];
    }
  }

  /** The first separator after a separator-free piece is the one right after it. */
  lemma FirstIndexAfterPiece(p: string, sep: char, t: string)
    requires sep !in p
    ensures FirstIndexOf(p + [sep] + t, sep) == Some(|p|)
  {
    var u := p + [sep] + t;
    assert u[|p|] == sep;
    assert u[..|p|] == p;
  }

  /** Joining three parts. */
  lemma JoinThree(parts: seq<string>, sep: char)
    requires |parts| == 3
    ensures Join(parts, sep) == parts[0] + [sep] + parts[1] + [sep] + parts[2]
  {
    assert |parts[1..]| == 2 && parts[1..][0] == parts[1];
    assert |parts[1..][1..]| == 1 && parts[1..][1..][0] == parts[2];
    assert Join(parts[1..][1..], sep) == parts[2];
    assert Join(parts[1..], sep) == parts[1] + [sep] + parts[2];
    assert Join(parts, sep) == parts[0] + [sep] + (parts[1] + [sep] + parts[2]);
  }

  /** `s || d` in JavaScript and `s or d` in Python: the empty string is
      replaced by the default. */
  function OrElse(s: string, default: string): string
  {
    if s == "" then default else s
  }

  /** `line` is `piece` less the one carriage return `piece` ends with, if
      any. */
  predicate CrDropped(piece: string, line: string)
  {
    piece == line + ['\r'] || (piece == line && (piece == [] || piece[|piece| - 1] != '\r'))
  }

  /** Drops one carriage return at the end of a line. */
  function DropCr(line: string): (r: string)
    ensures CrDropped(line, r)
    ensures forall c :: c in r ==> c in line
  {
    if |line| > 0 && line[|line| - 1] == '\r' then line[..|line| - 1] else line
  }

  /** JavaScript `text.trim().split(/\r?\n/)`: one line per line-feed
      separated piece of the trimmed text, the piece less the carriage return
      it ends with, if any. After the trim the last piece cannot end in a
      carriage return, so dropping one from every piece is the same as
      splitting on an optional `\r` before each `\n`. */
  function JsLines(text: string): (r: seq<string>)
    ensures |r| == |Split(Trim(text), '\n')| >= 1
    ensures forall i :: 0 <= i < |r| ==> '\n' !in r[i]
    ensures forall i :: 0 <= i < |r| ==> CrDropped(Split(Trim(text), '\n')[i], r[i])
  {
    var pieces := Split(Trim(text), '\n');
    seq(|pieces|, i requires 0 <= i < |pieces| => DropCr(pieces[i]))
  }

  /** The row Python's `csv.reader` yields for one line without quoting:
      a blank line is the empty row, any other line its comma-separated cells.
      Quoted fields are not modelled. */
  function PyCsvRow(line: string): (r: seq<string>)
    ensures line == [] <==> r == []
  {
    if line == [] then [] else Split(line, ',')
  }

  /** The lines `io.StringIO(text)` hands to the reader: the pieces between
      line feeds, a final line feed not starting another line. */
  function PyLines(text: string): (r: seq<string>)
    ensures forall i :: 0 <= i < |r| ==> '\n' !in r[i]
    ensures text == [] <==> r == []
  {
    var pieces := Split(text, '\n');
    if pieces[|pieces| - 1] == [] then pieces[..|pieces| - 1]
    else pieces
  }

  /** A line up to its first carriage return, where the reader ends the
      record. */
  function BeforeCr(line: string): (r: string)
    ensures '\r' !in r && |r| <= |line| && r == line[..|r|]
    ensures |r| < |line| ==> line[|r|] == '\r'
  {
    if line == [] || line[0] == '\r' then []
    else
      var rest := BeforeCr(line[1..]);
      assert [line[0]] + rest == line[..|rest| + 1];
      [line[0]] + rest
  }

  /** A carriage return followed on its line by anything but more carriage
      returns: there `csv.reader` raises ("new-line character seen in
      unquoted field"). */
  predicate BareCr(line: string)
  {
    exists i, j :: 0 <= i < j < |line| && line[i] == '\r' && line[j] != '\r'
  }

  /** `list(csv.reader(io.StringIO(text)))` raises on some line. */
  predicate PyCsvRaises(text: string)
  {
    exists i :: 0 <= i < |PyLines(text)| && BareCr(PyLines(text)[i])
  }

  /** `list(csv.reader(io.StringIO(text)))` where it does not raise
      (`PyCsvRaises`): one row per line, the line read up to its first
      carriage return; empty text has no rows. */
  function PyCsvRows(text: string): (r: seq<seq<string>>)
    ensures |r| == |PyLines(text)|
    ensures text == [] ==> r == []
    ensures '\r' !in text ==> forall i :: 0 <= i < |r| ==> r[i] == PyCsvRow(PyLines(text)[i])
  {
    var lines := PyLines(text);
    assert '\r' !in text ==> forall i :: 0 <= i < |lines| ==> BeforeCr(lines[i]) == lines[i] by {
      if '\r' !in text {
        forall i | 0 <= i < |lines| ensures BeforeCr(lines[i]) == lines[i] {
          LineOfText(text, i);
        }
      }
    }
    seq(|lines|, i requires 0 <= i < |lines| => PyCsvRow(BeforeCr(lines[i])))
  }

  /** Every character of a line occurs in the text. */
  lemma LineOfText(text: string, i: nat)
    requires i < |PyLines(text)|
    ensures forall c :: c in PyLines(text)[i] ==> c in text
  {
    var pieces := Split(text, '\n');
    assert PyLines(text)[i] == pieces[i];
    JoinHasPieces(pieces, '\n', i);
  }

  /** An empty text has no rows and does not make the reader raise. */
  lemma EmptyCsv()
    ensures Strip([]) == [] && PyCsvRows([]) == [] && !PyCsvRaises([])
  {
    assert PyLines([]) == [];
  }

  /** A piece of a join occurs in it, character by character. */
  lemma {:induction false} JoinHasPieces(parts: seq<string>, sep: char, i: nat)
    requires i < |parts|
    ensures forall c :: c in parts[i] ==> c in Join(parts, sep)
    decreases |parts|
  {
    if |parts| > 1 {
      assert Join(parts, sep) == parts[0] + ([sep] + Join(parts[1..], sep));
      if i > 0 {
        JoinHasPieces(parts[1..], sep, i - 1);
        assert parts[1..][i - 1] == parts[i];
      }
    }
  }

  /** A header line, a carriage return and a row on the same line make the
      reader raise. */
  lemma BareCarriageReturnRaises(header: string, row: string)
    requires '\n' !in header && '\n' !in row && row != [] && row[0] != '\r'
    ensures PyCsvRaises(header + ['\r'] + row)
  {
    var text := header + ['\r'] + row;
    assert '\n' !in text;
    SplitJoin([text], '\n');
    assert Join([text], '\n') == text;
    assert PyLines(text) == [text];
    assert text[|header|] == '\r' && text[|header| + 1] == row[0];
  }

  /** The cell at index `i` of a row: `undefined` in JavaScript (or an
      `IndexError` in Python) when `i` is out of range, including `-1`. */
  function Cell(cols: seq<string>, i: int): (r: Option<string>)
    ensures r.Some? <==> 0 <= i < |cols|
    ensures r.Some? ==> r.value == cols[i]
  {
    if 0 <= i < |cols| then Some(cols[i]) else None
  }

  /** JavaScript `header.findIndex((h) => h.includes(key))`: the first cell
      containing `key`, or -1 when none does. */
  function FindContaining(header: seq<string>, key: string): (r: int)
    ensures -1 <= r < |header|
    ensures r == -1 <==> forall j :: 0 <= j < |header| ==> !Contains(header[j], key)
    ensures r >= 0 ==> Contains(header[r], key) && forall j :: 0 <= j < r ==> !Contains(header[j], key)
  {
    if |header| == 0 then -1
    else if Contains(header[0], key) then 0
    else
      var k := FindContaining(header[1..], key);
      if k == -1 then -1 else k + 1
  }

  /** Python `header.index(key)`: the first cell equal to `key`, or `None`
      where Python raises `ValueError`. */
  function IndexOf(header: seq<string>, key: string): (r: Option<nat>)
    ensures r.None? <==> key !in header
    ensures r.Some? ==> r.value < |header| && header[r.value] == key && key !in header[..r.value]
  {
    if |header| == 0 then None
    else if header[0] == key then Some(0)
    else
      match IndexOf(header[1..], key)
      case None => None
      case Some(k) =>
        assert header[..k + 1] == [header[0]] + header[1..][..k];
        Some(k + 1)
  }

  /** The header cells as the readers normalise them: each comma-separated
      cell trimmed with the runtime's whitespace and lower-cased
      (`h.trim().toLowerCase()` in the page, `h.strip().lower()` on the
      server). */
  function NormalizeHeader(rt: Runtime, cells: seq<string>): (r: seq<string>)
    ensures |r| == |cells|
    ensures forall i :: 0 <= i < |cells| ==> r[i] == Lower(TrimIn(rt, cells[i]))
  {
    seq(|cells|, i requires 0 <= i < |cells| => Lower(TrimIn(rt, cells[i])))
  }
}
