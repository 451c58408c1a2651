/** Training data from a close series: fixed-length windows labelled by the
    next move, the chronological 80/20 split, the quantum model's window
    standardisation and its shuffled split, and the filter that drops
    missing closes. */
module Windowing {
  import opened Wrappers
  import opened Seqs

  /** One sample: a window of closes and its label, 1 when the close after
      the window's successor is at least that successor, else 0. */
  datatype Sample = Sample(window: seq<real>, target: int)

  /** Default window of the dense models. */
  const DenseWindow: nat := 20
  /** Window of the quantum model. */
  const QlstmWindow: nat := 8
  /** Fewest windows the browser-side trainer accepts. */
  const MinWindows: nat := 50

  /** `max(0, n - w - 1)`: the iteration count of `range(len - w - 1)`. */
  function WindowCount(n: nat, w: nat): (r: nat)
    ensures r + w + 1 <= n || r == 0
    ensures n >= w + 1 ==> r == n - w - 1
  {
    if n > w + 1 then n - w - 1 else 0
  }

  /** `1 if nxt >= cur else 0`. */
  function Label(cur: real, next: real): (b: int)
    ensures b == 0 || b == 1
    ensures b == 1 <==> next >= cur
  {
    if next >= cur then 1 else 0
  }

  /** `make_dataset` (and the browser's `makeSequences`): window `i` is
      `vals[i..i+w]`, labelled by comparing `vals[i+w+1]` with `vals[i+w]`. */
  function MakeDataset(vals: seq<real>, w: nat): (r: seq<Sample>)
    ensures |r| == WindowCount(|vals|, w)
    ensures forall i :: 0 <= i < |r| ==>
              && i + w + 1 < |vals|
              && r[i].window == vals[i..i + w]
              && (r[i].target == 1 <==> vals[i + w + 1] >= vals[i + w])
              && (r[i].target == 0 || r[i].target == 1)
  {
    var n := WindowCount(|vals|, w);
    seq(n, i requires 0 <= i < n => WindowAt(vals, w, i))
  }

  function WindowAt(vals: seq<real>, w: nat, i: nat): (s: Sample)
    requires i + w + 1 < |vals|
    ensures s.window == vals[i..i + w]
    ensures s.target == 1 <==> vals[i + w + 1] >= vals[i + w]
    ensures s.target == 0 || s.target == 1
  {
    Sample(vals[i..i + w], Label(vals[i + w], vals[i + w + 1]))
  }

  function Windows(ds: seq<Sample>): (r: seq<seq<real>>)
    ensures |r| == |ds| && forall i :: 0 <= i < |ds| ==> r[i] == ds[i].window
  {
    seq(|ds|, i requires 0 <= i < |ds| => ds[i].window)
  }

  function Labels(ds: seq<Sample>): (r: seq<int>)
    ensures |r| == |ds| && forall i :: 0 <= i < |ds| ==> r[i] == ds[i].target
  {
    seq(|ds|, i requires 0 <= i < |ds| => ds[i].target)
  }

  /** `makeSequences`: the loop that fills `X` and `y` side by side yields
      exactly the windows and labels of `MakeDataset`. */
  method MakeSequences(vals: seq<real>, window: nat) returns (xs: seq<seq<real>>, ys: seq<int>)
    ensures xs == Windows(MakeDataset(vals, window))
    ensures ys == Labels(MakeDataset(vals, window))
  {
    var ds := MakeDataset(vals, window);
    xs, ys := [], [];
    var i := 0;
    while i < |vals| - window - 1
      invariant 0 <= i <= |ds|
      invariant |xs| == |ys| == i
      invariant forall k :: 0 <= k < i ==> xs[k] == ds[k].window && ys[k] == ds[k].target
    {
      var cur := vals[i + window];
      var next := vals[i + window + 1];
      xs := xs + [vals[i..i + window]];
      ys := ys + [if next >= cur then 1 else 0];
      i := i + 1;
    }
  }

  /** Samples depend only on the closes up to their successor: more data
      appends samples and never changes earlier ones. */
  lemma MakeDatasetPrefix(vals: seq<real>, more: seq<real>, w: nat)
    ensures var a, b := MakeDataset(vals, w), MakeDataset(vals + more, w);
            |a| <= |b| && a == b[..|a|]
  {
    var a, b := MakeDataset(vals, w), MakeDataset(vals + more, w);
    forall i | 0 <= i < |a| ensures a[i] == b[i] {
      assert (vals + more)[i..i + w] == vals[i..i + w];
      assert (vals + more)[i + w] == vals[i + w] && (vals + more)[i + w + 1] == vals[i + w + 1];
    }
  }

  /** On a rising (non-decreasing) series every label is 1. */
  lemma RisingSeriesLabelsUp(vals: seq<real>, w: nat)
    requires forall i :: 0 <= i < |vals| - 1 ==> vals[i] <= vals[i + 1]
    ensures forall i :: 0 <= i < |MakeDataset(vals, w)| ==> MakeDataset(vals, w)[i].target == 1
  {
  }

  /** On a strictly falling series every label is 0. */
  lemma FallingSeriesLabelsDown(vals: seq<real>, w: nat)
    requires forall i :: 0 <= i < |vals| - 1 ==> vals[i] > vals[i + 1]
    ensures forall i :: 0 <= i < |MakeDataset(vals, w)| ==> MakeDataset(vals, w)[i].target == 0
  {
  }

  /** An unchanged close counts as a rise, so a constant series labels
      every sample 1. */
  lemma FlatSeriesLabelsUp(vals: seq<real>, w: nat)
    requires forall i :: 0 <= i < |vals| ==> vals[i] == vals[0]
    ensures forall i :: 0 <= i < |MakeDataset(vals, w)| ==> MakeDataset(vals, w)[i].target == 1
  {
  }

  /** `int(n * 0.8)` / `Math.floor(n * 0.8)` for a sample count `n`. */
  function SplitPoint(n: nat): (k: nat)
    ensures 5 * k <= 4 * n < 5 * k + 5
    ensures k <= n
  {
    (4 * n) / 5
  }

  /** Training and validation samples. */
  datatype TrainingSets = TrainingSets(train: seq<Sample>, validation: seq<Sample>)

  /** The chronological split: the first 80% train, the rest validate. */
  function ChronologicalSplit(ds: seq<Sample>): (r: TrainingSets)
    ensures r.train + r.validation == ds
    ensures |r.train| == SplitPoint(|ds|)
  {
    var k := SplitPoint(|ds|);
    assert ds[..k] + ds[k..] == ds;
    TrainingSets(ds[..k], ds[k..])
  }

  /** The data part of `trainAndPredict`: windows of 20, refused below 50
      windows (so below 71 closes), then split chronologically. */
  function PrepareTraining(vals: seq<real>): (r: Result<TrainingSets, string>)
    ensures r.Err? <==> |vals| < MinWindows + DenseWindow + 1
    ensures r.Ok? ==> r.value.train + r.value.validation == MakeDataset(vals, DenseWindow)
    ensures r.Ok? ==> |r.value.train| == SplitPoint(|vals| - DenseWindow - 1)
    ensures r.Ok? ==> |r.value.validation| >= 10 && |r.value.train| >= 40
  {
    var ds := MakeDataset(vals, DenseWindow);
    if |ds| < MinWindows then Err("insufficient_data")
    else Ok(ChronologicalSplit(ds))
  }

  /** `train` in the dense trainer: the default-window dataset, split
      chronologically with no minimum. */
  function DenseTrainingSets(closes: seq<real>): (r: TrainingSets)
    ensures r.train + r.validation == MakeDataset(closes, DenseWindow)
    ensures |r.train| == SplitPoint(WindowCount(|closes|, DenseWindow))
  {
    ChronologicalSplit(MakeDataset(closes, DenseWindow))
  }

  /** `fetch_closes`: the closes that are present, in their order. */
  function DropMissing(closes: seq<Option<real>>): (r: seq<real>)
    ensures |r| <= |closes|
  {
    FilterMap(closes, (c: Option<real>) => c)
  }

  /** `DropMissing` is the homomorphism that keeps a present close and drops
      a missing one. */
  lemma DropMissingSpec(a: seq<Option<real>>, b: seq<Option<real>>, x: real)
    ensures DropMissing(a + b) == DropMissing(a) + DropMissing(b)
    ensures DropMissing([Some(x)]) == [x]
    ensures DropMissing([None]) == []
  {
    FilterMapAppend(a, b, (c: Option<real>) => c);
  }

  /** `x - m` element-wise. */
  function Shifted(x: seq<real>, m: real): (r: seq<real>)
    ensures |r| == |x| && forall i :: 0 <= i < |x| ==> r[i] == x[i] - m
  {
    seq(|x|, i requires 0 <= i < |x| => x[i] - m)
  }

  /** `y / d` element-wise. */
  function Scaled(y: seq<real>, d: real): (r: seq<real>)
    requires d != 0.0
    ensures |r| == |y| && forall i :: 0 <= i < |y| ==> r[i] == y[i] / d
  {
    seq(|y|, i requires 0 <= i < |y| => y[i] / d)
  }

  predicate Constant(x: seq<real>)
  {
    forall i :: 0 <= i < |x| ==> x[i] == x[0]
  }

  /** `preprocess`: standardise a window by its mean and its standard
      deviation `sd`, dividing by 1 instead when `sd` is 0. The result sums
      to 0, and a window with no spread becomes all zeros. */
  function Preprocess(x: seq<real>, sd: real): (r: seq<real>)
    requires sd >= 0.0
    ensures |r| == |x|
    ensures forall i :: 0 <= i < |x| ==> r[i] * (if sd == 0.0 then 1.0 else sd) == x[i] - Mean(x)
    ensures Sum(r) == 0.0
    ensures Constant(x) ==> forall i :: 0 <= i < |r| ==> r[i] == 0.0
  {
    MeanTimesCount(x);
    ConstantMean(x);
    Standardised(x, Mean(x), if sd == 0.0 then 1.0 else sd)
  }

  /** `(x - m) / d` element-wise. */
  function Standardised(x: seq<real>, m: real, d: real): (r: seq<real>)
    requires d != 0.0
    ensures |r| == |x|
    ensures forall i :: 0 <= i < |x| ==> r[i] * d == x[i] - m
    ensures Sum(r) == (Sum(x) - (|x| as real) * m) / d
  {
    SumShifted(x, m);
    SumScaled(Shifted(x, m), d);
    ScaledUndone(x, m, d);
    Scaled(Shifted(x, m), d)
  }

  /** Multiplying a standardised value back by the divisor gives the
      deviation from the mean. */
  lemma ScaledUndone(x: seq<real>, m: real, d: real)
    requires d != 0.0
    ensures forall i :: 0 <= i < |x| ==> Scaled(Shifted(x, m), d)[i] * d == x[i] - m
  {
    var y := Shifted(x, m);
    forall i | 0 <= i < |x|
      ensures Scaled(y, d)[i] * d == x[i] - m
    {
      assert Scaled(y, d)[i] == y[i] / d;
    }
  }

  lemma {:induction false} SumShifted(x: seq<real>, m: real)
    ensures Sum(Shifted(x, m)) == Sum(x) - (|x| as real) * m
    decreases |x|
  {
    if |x| > 0 {
      assert Shifted(x, m)[1..] == Shifted(x[1..], m);
      SumShifted(x[1..], m);
    }
  }

  lemma {:induction false} SumScaled(y: seq<real>, d: real)
    requires d != 0.0
    ensures Sum(Scaled(y, d)) == Sum(y) / d
    decreases |y|
  {
    if |y| > 0 {
      assert Scaled(y, d)[1..] == Scaled(y[1..], d);
      SumScaled(y[1..], d);
      DivAdd(y[0], Sum(y[1..]), d);
    }
  }

  lemma DivAdd(a: real, b: real, d: real)
    requires d != 0.0
    ensures a / d + b / d == (a + b) / d
  {
  }

  /** `n * mean == sum`. */
  lemma MeanTimesCount(x: seq<real>)
    ensures (|x| as real) * Mean(x) == Sum(x)
  {
    if |x| == 0 {
      assert Sum(x) == 0.0;
    }
  }

  lemma {:induction false} SumZeros(z: seq<real>)
    requires forall i :: 0 <= i < |z| ==> z[i] == 0.0
    ensures Sum(z) == 0.0
    decreases |z|
  {
    if |z| > 0 {
      SumZeros(z[1..]);
    }
  }

  /** The mean of a constant window is its value. */
  lemma ConstantMean(x: seq<real>)
    ensures Constant(x) && |x| > 0 ==> Mean(x) == x[0]
  {
    if Constant(x) && |x| > 0 {
      SumShifted(x, x[0]);
      SumZeros(Shifted(x, x[0]));
      var n := |x| as real;
      assert Sum(x) == n * x[0];
      assert (n * x[0]) / n == x[0];
    }
  }

  /** One transposition of the index array `np.random.shuffle` permutes. */
  datatype Swap = Swap(i: nat, j: nat)

  function Identity(n: nat): (r: seq<nat>)
    ensures |r| == n && forall i :: 0 <= i < n ==> r[i] == i
  {
    seq(n, i requires 0 <= i < n => i)
  }

  predicate InRange(p: seq<nat>, n: nat)
  {
    forall i :: 0 <= i < |p| ==> p[i] < n
  }

  predicate SwapsInRange(swaps: seq<Swap>, n: nat)
  {
    forall k :: 0 <= k < |swaps| ==> swaps[k].i < n && swaps[k].j < n
  }

  function SwapAt<T>(s: seq<T>, i: nat, j: nat): (r: seq<T>)
    requires i < |s| && j < |s|
    ensures |r| == |s| && multiset(r) == multiset(s)
  {
    s[i := s[j]][j := s[i]]
  }

  /** The index array after the shuffle's transpositions, in order. */
  function ApplySwaps(p: seq<nat>, swaps: seq<Swap>): (r: seq<nat>)
    requires SwapsInRange(swaps, |p|)
    ensures |r| == |p| && multiset(r) == multiset(p)
    decreases |swaps|
  {
    if |swaps| == 0 then p
    else ApplySwaps(SwapAt(p, swaps[0].i, swaps[0].j), swaps[1..])
  }

  /** `xs[idx]`. */
  function Gather<T>(xs: seq<T>, idx: seq<nat>): (r: seq<T>)
    requires InRange(idx, |xs|)
    ensures |r| == |idx| && forall i :: 0 <= i < |idx| ==> r[i] == xs[idx[i]]
  {
    seq(|idx|, i requires 0 <= i < |idx| => xs[idx[i]])
  }

  /** Gathering through a swapped index array swaps the gathered elements. */
  lemma GatherSwap<T>(xs: seq<T>, p: seq<nat>, i: nat, j: nat)
    requires InRange(p, |xs|) && i < |p| && j < |p|
    ensures InRange(SwapAt(p, i, j), |xs|)
    ensures Gather(xs, SwapAt(p, i, j)) == SwapAt(Gather(xs, p), i, j)
  {
  }

  /** Gathering through shuffled indices permutes what the indices gathered. */
  lemma {:induction false} GatherShuffle<T>(xs: seq<T>, p: seq<nat>, swaps: seq<Swap>)
    requires InRange(p, |xs|) && SwapsInRange(swaps, |p|)
    ensures InRange(ApplySwaps(p, swaps), |xs|)
    ensures multiset(Gather(xs, ApplySwaps(p, swaps))) == multiset(Gather(xs, p))
    decreases |swaps|
  {
    if |swaps| > 0 {
      var q := SwapAt(p, swaps[0].i, swaps[0].j);
      GatherSwap(xs, p, swaps[0].i, swaps[0].j);
      GatherShuffle(xs, q, swaps[1..]);
    }
  }

  /** `X = X[idx]; y = y[idx]`, then the 80/20 split: one permutation moves
      each window together with its own label, so the two sets hold exactly
      the samples of the dataset. */
  function ShuffledSplit(ds: seq<Sample>, swaps: seq<Swap>): (r: TrainingSets)
    requires SwapsInRange(swaps, |ds|)
    ensures |r.train| == SplitPoint(|ds|)
    ensures multiset(r.train + r.validation) == multiset(ds)
  {
    var idx := ApplySwaps(Identity(|ds|), swaps);
    GatherShuffle(ds, Identity(|ds|), swaps);
    assert Gather(ds, Identity(|ds|)) == ds;
    ChronologicalSplit(Gather(ds, idx))
  }

  /** Shuffling the windows and the labels separately by one index array is
      shuffling the samples. */
  lemma ShufflePairsLabels(ds: seq<Sample>, swaps: seq<Swap>)
    requires SwapsInRange(swaps, |ds|)
    ensures var idx := ApplySwaps(Identity(|ds|), swaps);
            InRange(idx, |ds|)
            && Gather(Windows(ds), idx) == Windows(Gather(ds, idx))
            && Gather(Labels(ds), idx) == Labels(Gather(ds, idx))
  {
    GatherShuffle(ds, Identity(|ds|), swaps);
  }

  /** Every window standardised by its own standard deviation; labels kept. */
  function PreprocessAll(ds: seq<Sample>, sds: seq<real>): (r: seq<Sample>)
    requires |sds| == |ds| && forall i :: 0 <= i < |sds| ==> sds[i] >= 0.0
    ensures |r| == |ds|
    ensures forall i :: 0 <= i < |ds| ==>
              r[i].target == ds[i].target && |r[i].window| == |ds[i].window| && Sum(r[i].window) == 0.0
    ensures forall i :: 0 <= i < |ds| ==> r[i].window == Preprocess(ds[i].window, sds[i])
  {
    seq(|ds|, i requires 0 <= i < |ds| => Sample(Preprocess(ds[i].window, sds[i]), ds[i].target))
  }

  /** The data part of the quantum model's `train`: windows of 8,
      standardised, shuffled with their labels, then split 80/20. */
  function QlstmTrainingSets(closes: seq<real>, sds: seq<real>, swaps: seq<Swap>): (r: TrainingSets)
    requires |sds| == WindowCount(|closes|, QlstmWindow) && forall i :: 0 <= i < |sds| ==> sds[i] >= 0.0
    requires SwapsInRange(swaps, |sds|)
    ensures |r.train| == SplitPoint(WindowCount(|closes|, QlstmWindow))
    ensures multiset(r.train + r.validation) == multiset(PreprocessAll(MakeDataset(closes, QlstmWindow), sds))
  {
    ShuffledSplit(PreprocessAll(MakeDataset(closes, QlstmWindow), sds), swaps)
  }
}
