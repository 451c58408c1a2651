/** The prediction ledger kept in browser storage: read with corrupt
    contents treated as empty, and extended newest first up to a fixed
    capacity. Storage is an optional string; the JSON codec is a pair of
    functions supplied by the caller. */
module Ledger {
  import opened Wrappers
  import opened Numbers
  import opened Predictor

  /** One stored prediction. */
  datatype Record = Record(id: string, symbol: string, date: string, direction: Direction, confidence: int)

  /** At most this many records are kept. */
  const Capacity: nat := 1000

  /** What `JSON.parse` makes of the stored text: a syntax error, a value
      that is not an array, or an array of records. */
  datatype Parsed = SyntaxError | NotAnArray | RecordArray(records: seq<Record>)

  /** `getPredictions`: a missing or empty entry, unparseable text and a
      non-array value all read as the empty ledger; nothing throws. */
  function GetPredictions(stored: Option<string>, parse: string -> Parsed): (r: seq<Record>)
    ensures stored.None? || stored == Some("") ==> r == []
    ensures r != [] ==> stored.Some? && parse(stored.value) == RecordArray(r)
    ensures stored.Some? && stored.value != "" && parse(stored.value).RecordArray? ==>
              r == parse(stored.value).records
  {
    match stored
    case None => []
    case Some(raw) =>
      if raw == "" then []
      else
        match parse(raw)
        case RecordArray(xs) => xs
        case _ => []
  }

  /** `arr.unshift(p); arr.slice(0, 1000)`: the new record first, then the
      old ones in their order, dropping the oldest beyond the capacity. No
      check for an existing `id`. */
  function Insert(xs: seq<Record>, p: Record): (r: seq<Record>)
    ensures |r| == Min(|xs| + 1, Capacity)
    ensures r[0] == p
    ensures r[1..] == xs[..|r| - 1]
  {
    ([p] + xs)[..Min(|xs| + 1, Capacity)]
  }

  /** `addPrediction`: the text stored afterwards. */
  function AddPrediction(stored: Option<string>, parse: string -> Parsed,
                         serialize: seq<Record> -> string, p: Record): string
  {
    serialize(Insert(GetPredictions(stored, parse), p))
  }

  /** With a codec whose parse undoes its serialisation, reading after
      `addPrediction` gives the old ledger with the record inserted. */
  lemma AddThenGet(stored: Option<string>, parse: string -> Parsed,
                   serialize: seq<Record> -> string, p: Record)
    requires forall xs :: parse(serialize(xs)) == RecordArray(xs)
    requires forall xs :: serialize(xs) != ""
    ensures GetPredictions(Some(AddPrediction(stored, parse, serialize, p)), parse)
            == Insert(GetPredictions(stored, parse), p)
  {
    var ins := Insert(GetPredictions(stored, parse), p);
    assert parse(serialize(ins)) == RecordArray(ins);
    assert serialize(ins) != "";
  }

  /** A record whose `id` is already present is still added, and the old one
      kept unless it is the oldest at capacity. */
  lemma NoDeduplication(xs: seq<Record>, p: Record, i: nat)
    requires i < |xs| && xs[i].id == p.id
    ensures |xs| < Capacity ==> |Insert(xs, p)| == |xs| + 1
    ensures i + 1 < Capacity ==> Insert(xs, p)[i + 1] == xs[i] && Insert(xs, p)[0] == p
  {
    var r := Insert(xs, p);
    if i + 1 < Capacity {
      assert r[1..][i] == xs[i];
    }
  }

  /** The records of `ps` added one after the other. */
  function InsertAll(xs: seq<Record>, ps: seq<Record>): (r: seq<Record>)
    ensures |ps| > 0 ==> |r| > 0 && r[0] == ps[|ps| - 1]
    decreases |ps|
  {
    if |ps| == 0 then xs
    else
      var r := InsertAll(Insert(xs, ps[0]), ps[1..]);
      assert |ps| == 1 ==> r[0] == ps[0];
      r
  }

  function Reverse(ps: seq<Record>): (r: seq<Record>)
    ensures |r| == |ps|
    ensures forall i :: 0 <= i < |ps| ==> r[i] == ps[|ps| - 1 - i]
  {
    if |ps| == 0 then [] else Reverse(ps[1..]) + [ps[0]]
  }

  /** The first `Min(|s|, Capacity)` elements. */
  function Keep(s: seq<Record>): (r: seq<Record>)
    ensures |r| == Min(|s|, Capacity)
    ensures r == s[..|r|]
  {
    s[..Min(|s|, Capacity)]
  }

  lemma KeepOfKept(a: seq<Record>, b: seq<Record>)
    ensures Keep(a + Keep(b)) == Keep(a + b)
  {
    var k := Min(|a| + |b|, Capacity);
    assert |Keep(a + Keep(b))| == k;
    forall i | 0 <= i < k ensures Keep(a + Keep(b))[i] == Keep(a + b)[i] {
      if i >= |a| {
        assert Keep(b)[i - |a|] == b[i - |a|];
      }
    }
  }

  /** Adding several records leaves the newest first, followed by the old
      ledger, cut at the capacity: the ledger is a bounded stack. */
  lemma {:induction false} InsertAllNewestFirst(xs: seq<Record>, ps: seq<Record>)
    requires |xs| <= Capacity
    ensures InsertAll(xs, ps) == Keep(Reverse(ps) + xs)
    decreases |ps|
  {
    if |ps| == 0 {
      assert Reverse(ps) + xs == xs;
    } else {
      var ins := Insert(xs, ps[0]);
      assert ins == Keep([ps[0]] + xs);
      InsertAllNewestFirst(ins, ps[1..]);
      KeepOfKept(Reverse(ps[1..]), [ps[0]] + xs);
      assert Reverse(ps) == Reverse(ps[1..]) + [ps[0]];
      assert Reverse(ps[1..]) + ([ps[0]] + xs) == Reverse(ps) + xs;
    }
  }
}
