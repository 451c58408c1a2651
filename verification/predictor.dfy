/** The prediction rules: the moving-average momentum heuristic of the page
    (`fastPredict`) and of the server (the tail of `infer_from_closes`), the
    mapping from a model probability to a prediction, the server's model
    loading and the priority among its three prediction paths. */
module Predictor {
  import opened Wrappers
  import opened Numbers
  import opened Seqs

  datatype Direction = Up | Down

  /** A prediction as the page and the server report it; confidence in percent. */
  datatype Prediction = Prediction(direction: Direction, confidence: int)

  /** Length of the moving average both heuristics compare against. */
  const SmaPeriod: nat := 20

  /** The keras model's input window (`make_sequences`' default). */
  const KerasWindow: nat := 20

  /** The "no signal" answer both heuristics give. */
  const NoSignal := Prediction(Down, 50)

  function Abs(x: real): (r: real)
    ensures r >= 0.0 && (r == x || r == -x)
  {
    if x < 0.0 then -x else x
  }

  /** `abs((last - m) / m) * 100`: the distance of `last` from `m`, in percent of `m`. */
  function DeviationPercent(last: real, m: real): (r: real)
    requires m != 0.0
    ensures r >= 0.0
  {
    Abs((last - m) / m) * 100.0
  }

  /** `sma(values, period)`: NaN until a full window exists, then the mean of
      the `period` values ending at each position. */
  function Sma(values: seq<real>, period: nat): (r: seq<Num>)
    requires period >= 1
    ensures |r| == |values|
    ensures forall i :: 0 <= i < |r| ==> (r[i].NaN? <==> i + 1 < period)
    ensures forall i :: period <= i + 1 <= |r| ==> r[i] == Finite(Mean(values[i + 1 - period..i + 1]))
  {
    seq(|values|, i requires 0 <= i < |values| =>
      if i + 1 < period then NaN else Finite(Sum(values[i + 1 - period..i + 1]) / (period as real)))
  }

  /** The average the heuristics use: the mean of the last 20 values. */
  function RecentMean(vals: seq<real>): real
  {
    Mean(TakeLast(vals, SmaPeriod))
  }

  /** The last entry of the moving average is the mean of the last window. */
  lemma SmaLast(vals: seq<real>)
    requires |vals| >= SmaPeriod
    ensures Sma(vals, SmaPeriod)[|vals| - 1] == Finite(RecentMean(vals))
  {
    assert vals[|vals| - SmaPeriod..|vals|] == TakeLast(vals, SmaPeriod);
  }

  /** `fastPredict`: no signal for fewer than 20 values or a zero average;
      otherwise UP iff the last value lies strictly above the average, with
      the rounded percentage deviation clamped to [55, 95] as confidence. */
  function FastPredict(vals: seq<real>): (r: Prediction)
    ensures |vals| < SmaPeriod ==> r == NoSignal
    ensures |vals| >= SmaPeriod && RecentMean(vals) == 0.0 ==> r == NoSignal
    ensures |vals| >= SmaPeriod && RecentMean(vals) != 0.0 ==>
              && (r.direction == Up <==> vals[|vals| - 1] > RecentMean(vals))
              && r.confidence == Clamp(55, 95, JsRound(DeviationPercent(vals[|vals| - 1], RecentMean(vals))))
    ensures r == NoSignal || 55 <= r.confidence <= 95
  {
    if |vals| < SmaPeriod then NoSignal
    else
      var s := Sma(vals, SmaPeriod);
      var last := vals[|vals| - 1];
      var m := s[|s| - 1];
      SmaLast(vals);
      if m.NaN? || m.value == 0.0 then NoSignal
      else
        Prediction(if last > m.value then Up else Down, Clamp(55, 95, JsRound(DeviationPercent(last, m.value))))
  }

  /** The heuristic tail of `infer_from_closes`: the same rule, clamping
      before rounding half to even. A zero average makes the division raise
      ZeroDivisionError, which leaves the function. */
  function PyHeuristic(closes: seq<real>): (r: Result<Prediction, string>)
    ensures r.Err? <==> |closes| >= SmaPeriod && RecentMean(closes) == 0.0
    ensures |closes| < SmaPeriod ==> r == Ok(NoSignal)
    ensures r.Ok? && |closes| >= SmaPeriod ==>
              && 55 <= r.value.confidence <= 95
              && (r.value.direction == Up <==> closes[|closes| - 1] > RecentMean(closes))
              && r.value.confidence == PyRound(ClampReal(55.0, 95.0, DeviationPercent(closes[|closes| - 1],
                                                                                     RecentMean(closes))))
  {
    if |closes| < SmaPeriod then Ok(NoSignal)
    else
      var sma := RecentMean(closes);
      var last := closes[|closes| - 1];
      if sma == 0.0 then Err("ZeroDivisionError")
      else
        var c := PyRound(ClampReal(55.0, 95.0, DeviationPercent(last, sma)));
        Ok(Prediction(if last > sma then Up else Down, c))
  }

  /** Page and server agree: the server fails only where the page has no
      signal, the directions coincide, and the confidences differ at most on
      an exact half percent, where the page's rounding is one higher. */
  lemma {:induction false} HeuristicsAgree(vals: seq<real>)
    ensures PyHeuristic(vals).Err? ==> FastPredict(vals) == NoSignal
    ensures PyHeuristic(vals).Ok? ==> PyHeuristic(vals).value.direction == FastPredict(vals).direction
    ensures PyHeuristic(vals).Ok? ==>
              var p, f := PyHeuristic(vals).value.confidence, FastPredict(vals).confidence;
              f == p || f == p + 1
  {
    if |vals| >= SmaPeriod && RecentMean(vals) != 0.0 {
      var x := DeviationPercent(vals[|vals| - 1], RecentMean(vals));
      var c := ClampReal(55.0, 95.0, x);
      if x < 55.0 {
        assert JsRound(x) <= 55;
        assert PyRound(c) == 55;
      } else if x > 95.0 {
        assert JsRound(x) >= 95;
        assert PyRound(c) == 95;
      } else {
        RoundingsAgreeOffHalves(x);
      }
    }
  }

  /** If the last value exceeds each of the 19 before it, the page predicts UP
      (unless the average is zero). */
  lemma {:induction false} RisingLastIsUp(vals: seq<real>)
    requires |vals| >= SmaPeriod
    requires forall i :: |vals| - SmaPeriod <= i < |vals| - 1 ==> vals[i] < vals[|vals| - 1]
    requires RecentMean(vals) != 0.0
    ensures FastPredict(vals).direction == Up
  {
    var w := TakeLast(vals, SmaPeriod);
    var last := vals[|vals| - 1];
    assert w == w[..SmaPeriod - 1] + [last];
    SumBelow(w[..SmaPeriod - 1], last);
    SumAppend(w[..SmaPeriod - 1], [last]);
    assert Sum([last]) == last;
  }

  /** If the last value is below each of the 19 before it, the page predicts DOWN. */
  lemma {:induction false} FallingLastIsDown(vals: seq<real>)
    requires |vals| >= SmaPeriod
    requires forall i :: |vals| - SmaPeriod <= i < |vals| - 1 ==> vals[i] > vals[|vals| - 1]
    ensures FastPredict(vals).direction == Down
  {
    var w := TakeLast(vals, SmaPeriod);
    var last := vals[|vals| - 1];
    assert w == w[..SmaPeriod - 1] + [last];
    SumAbove(w[..SmaPeriod - 1], last);
    SumAppend(w[..SmaPeriod - 1], [last]);
    assert Sum([last]) == last;
  }

  /** A learned model's probability `p` as a prediction: UP iff `p >= 0.5`,
      confidence `round(p * 100)` with no clamp. */
  function LearnedPrediction(p: real): (r: Prediction)
    ensures r.direction == Up <==> p >= 0.5
    ensures 100.0 * p - 0.5 <= r.confidence as real <= 100.0 * p + 0.5
    // `round` sends a half to the even neighbour
    ensures (r.confidence as real == 100.0 * p + 0.5 || r.confidence as real == 100.0 * p - 0.5)
              ==> r.confidence % 2 == 0
    ensures r.direction == Up ==> r.confidence >= 50
    ensures r.direction == Down ==> r.confidence <= 50
    ensures 0.0 <= p <= 1.0 ==> 0 <= r.confidence <= 100
  {
    Prediction(if p >= 0.5 then Up else Down, PyRound(p * 100.0))
  }

  /** The quantum circuit's Pauli-Z expectation `z` in [-1, 1] read as a
      probability: the affine map sending -1 to 0 and 1 to 1. */
  function QuantumProbability(z: real): (r: real)
    ensures 2.0 * r - 1.0 == z
    ensures -1.0 <= z <= 1.0 ==> 0.0 <= r <= 1.0
    ensures r >= 0.5 <==> z >= 0.0
    ensures r == 0.5 <==> z == 0.0
  {
    (z + 1.0) / 2.0
  }

  /** Which model the server holds after start-up. */
  datatype LoadedModel = QuantumModel(window: nat) | KerasModel | NoModel

  /** The start-up block: the quantum weights when their file exists and
      loads; the keras model only when there is no weights file at all. */
  function LoadModels(weightsExist: bool, weightsWindow: Option<nat>, kerasExists: bool, kerasLoads: bool): (r: LoadedModel)
    ensures r.QuantumModel? <==> weightsExist && weightsWindow.Some?
    ensures r.QuantumModel? ==> r.window == weightsWindow.value
    ensures r.KerasModel? <==> !weightsExist && kerasExists && kerasLoads
  {
    if weightsExist then
      (match weightsWindow
       case Some(w) => QuantumModel(w)
       case None => NoModel)
    else if kerasExists && kerasLoads then KerasModel
    else NoModel
  }

  /** `make_sequences(vals, window)`: None for too few values, else exactly
      the last `window` of them. */
  function ServerWindow(vals: seq<real>, window: nat): (r: Option<seq<real>>)
    requires window >= 1
    ensures r.None? <==> |vals| < window
    ensures r.Some? ==> |r.value| == window && vals == vals[..|vals| - window] + r.value
  {
    if |vals| < window then None else Some(TakeLast(vals, window))
  }

  /** `arr[-window:]`; a zero window selects the whole array in Python. */
  function QuantumInput(closes: seq<real>, window: nat): (r: seq<real>)
    ensures |r| <= |closes| && closes == closes[..|closes| - |r|] + r
    ensures window > 0 && |closes| >= window ==> |r| == window
  {
    if window == 0 then closes else TakeLast(closes, window)
  }

  /** `infer_from_closes`. The circuit and the network are parameters; None
      stands for an exception, which falls through to the next path. */
  function InferFromCloses(model: LoadedModel, circuit: seq<real> -> Option<real>,
                           network: seq<real> -> Option<real>, closes: seq<real>): (r: Result<Prediction, string>)
    ensures model.QuantumModel? && circuit(QuantumInput(closes, model.window)).Some? ==>
              r == Ok(LearnedPrediction(QuantumProbability(circuit(QuantumInput(closes, model.window)).value)))
    ensures model.KerasModel? && |closes| >= KerasWindow && network(TakeLast(closes, KerasWindow)).Some? ==>
              r == Ok(LearnedPrediction(network(TakeLast(closes, KerasWindow)).value))
    ensures r.Err? ==> r == PyHeuristic(closes)
  {
    var quantum := if model.QuantumModel? then circuit(QuantumInput(closes, model.window)) else None;
    var keras := if model.KerasModel? then (match ServerWindow(closes, KerasWindow)
                                            case Some(x) => network(x)
                                            case None => None)
                 else None;
    if quantum.Some? then Ok(LearnedPrediction(QuantumProbability(quantum.value)))
    else if keras.Some? then Ok(LearnedPrediction(keras.value))
    else PyHeuristic(closes)
  }

  /** Without a model, or when the model raises, the server uses the heuristic. */
  lemma InferFallsBack(model: LoadedModel, circuit: seq<real> -> Option<real>,
                       network: seq<real> -> Option<real>, closes: seq<real>)
    requires || model.NoModel?
             || (model.QuantumModel? && circuit(QuantumInput(closes, model.window)).None?)
             || (model.KerasModel? && (|closes| < KerasWindow || network(TakeLast(closes, KerasWindow)).None?))
    ensures InferFromCloses(model, circuit, network, closes) == PyHeuristic(closes)
  {
  }

  /** With models whose outputs stay in range, every answer's confidence is a
      percentage, and a failure needs a zero 20-day average. */
  lemma InferConfidenceRange(model: LoadedModel, circuit: seq<real> -> Option<real>,
                             network: seq<real> -> Option<real>, closes: seq<real>)
    requires forall x :: circuit(x).Some? ==> -1.0 <= circuit(x).value <= 1.0
    requires forall x :: network(x).Some? ==> 0.0 <= network(x).value <= 1.0
    ensures InferFromCloses(model, circuit, network, closes).Ok? ==>
              0 <= InferFromCloses(model, circuit, network, closes).value.confidence <= 100
    ensures InferFromCloses(model, circuit, network, closes).Err? ==>
              |closes| >= SmaPeriod && RecentMean(closes) == 0.0
  {
  }
}
