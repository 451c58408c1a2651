/** Generic sequence operations used by the readers and aggregations. */
module Seqs {
  import opened Wrappers

  /** Keeps, in order, the images of the elements of `xs` that `f` maps to `Some`.
      Every row reader of the system is an instance: a line either yields a
      row or is dropped. */
  function FilterMap<A, B>(xs: seq<A>, f: A -> Option<B>): (r: seq<B>)
    ensures |r| <= |xs|
  {
    if |xs| == 0 then []
    else
      match f(xs[0])
      case Some(y) => [y] + FilterMap(xs[1..], f)
      case None => FilterMap(xs[1..], f)
  }

  /** Number of elements of `xs` that `f` keeps. */
  function CountKept<A, B>(xs: seq<A>, f: A -> Option<B>): nat
  {
    if |xs| == 0 then 0 else (if f(xs[0]).Some? then 1 else 0) + CountKept(xs[1..], f)
  }

  /** Filtering distributes over concatenation, so the relative order of the
      kept elements is the order of the input. */
  lemma {:induction false} FilterMapAppend<A, B>(a: seq<A>, b: seq<A>, f: A -> Option<B>)
    ensures FilterMap(a + b, f) == FilterMap(a, f) + FilterMap(b, f)
    decreases |a|
  {
    if |a| == 0 {
      assert a + b == b;
    } else {
      assert (a + b)[0] == a[0];
      assert (a + b)[1..] == a[1..] + b;
      FilterMapAppend(a[1..], b, f);
    }
  }

  /** Exactly the elements `f` keeps are output. */
  lemma {:induction false} FilterMapCount<A, B>(xs: seq<A>, f: A -> Option<B>)
    ensures |FilterMap(xs, f)| == CountKept(xs, f)
    decreases |xs|
  {
    if |xs| > 0 {
      FilterMapCount(xs[1..], f);
    }
  }

  /** A property every kept image has holds of every output element. */
  lemma {:induction false} FilterMapAll<A, B>(xs: seq<A>, f: A -> Option<B>, p: B -> bool)
    requires forall x :: f(x).Some? ==> p(f(x).value)
    ensures forall k :: 0 <= k < |FilterMap(xs, f)| ==> p(FilterMap(xs, f)[k])
    decreases |xs|
  {
    if |xs| > 0 {
      FilterMapAll(xs[1..], f, p);
    }
  }

  /** A filter that keeps every element unchanged returns its input. */
  lemma {:induction false} FilterMapKeepsAll<A>(xs: seq<A>, f: A -> Option<A>)
    requires forall k :: 0 <= k < |xs| ==> f(xs[k]) == Some(xs[k])
    ensures FilterMap(xs, f) == xs
    decreases |xs|
  {
    if |xs| > 0 {
      assert f(xs[0]) == Some(xs[0]);
      forall k | 0 <= k < |xs| - 1 ensures f(xs[1..][k]) == Some(xs[1..][k]) {
        assert xs[1..][k] == xs[k + 1];
      }
      FilterMapKeepsAll(xs[1..], f);
    }
  }

  /** The positions of the kept elements: strictly increasing, each one maps
      to the output element of the same rank, and there are as many of them
      as elements `f` keeps, so no kept position is missing. */
  lemma {:induction false} FilterMapOrigins<A, B>(xs: seq<A>, f: A -> Option<B>) returns (idx: seq<nat>)
    ensures |idx| == |FilterMap(xs, f)| == CountKept(xs, f)
    ensures forall k :: 0 <= k < |idx| ==> idx[k] < |xs| && f(xs[idx[k]]) == Some(FilterMap(xs, f)[k])
    ensures forall k, l :: 0 <= k < l < |idx| ==> idx[k] < idx[l]
    ensures forall i :: 0 <= i < |xs| && f(xs[i]).Some? ==> i in idx
    decreases |xs|
  {
    FilterMapCount(xs, f);
    if |xs| == 0 {
      idx := [];
    } else {
      var tail := FilterMapOrigins(xs[1..], f);
      var rest := FilterMap(xs[1..], f);
      forall k | 0 <= k < |tail|
        ensures tail[k] + 1 < |xs| && f(xs[tail[k] + 1]) == Some(rest[k])
      {
        assert xs[1..][tail[k]] == xs[tail[k] + 1];
      }
      forall i | 1 <= i < |xs| && f(xs[i]).Some? ensures i - 1 in tail {
        assert xs[1..][i - 1] == xs[i];
      }
      idx := OriginsCons(xs, f, tail, rest, FilterMap(xs, f));
      OriginsConsComplete(xs, f, tail, Shift(tail), idx);
    }
  }

  /** The step of `FilterMapOrigins`: the positions of the kept elements of
      `xs[1..]`, shifted by one, with position 0 in front when `f` keeps
      `xs[0]`. */
  lemma OriginsCons<A, B>(xs: seq<A>, f: A -> Option<B>, tail: seq<nat>, rest: seq<B>, out: seq<B>)
    returns (idx: seq<nat>)
    requires |xs| > 0 && |tail| == |rest|
    requires forall k :: 0 <= k < |tail| ==> tail[k] + 1 < |xs| && f(xs[tail[k] + 1]) == Some(rest[k])
    requires forall k, l :: 0 <= k < l < |tail| ==> tail[k] < tail[l]
    requires out == if f(xs[0]).Some? then [f(xs[0]).value] + rest else rest
    ensures |idx| == |out|
    ensures forall k :: 0 <= k < |idx| ==> idx[k] < |xs| && f(xs[idx[k]]) == Some(out[k])
    ensures forall k, l :: 0 <= k < l < |idx| ==> idx[k] < idx[l]
    ensures idx == (if f(xs[0]).Some? then [0] else []) + Shift(tail)
  {
    var shifted := Shift(tail);
    if f(xs[0]).Some? {
      idx := [0] + shifted;
      forall k | 0 <= k < |idx|
        ensures idx[k] < |xs| && f(xs[idx[k]]) == Some(out[k])
      {
        if k > 0 {
          assert idx[k] == tail[k - 1] + 1 && out[k] == rest[k - 1];
        }
      }
      forall k, l | 0 <= k < l < |idx|
        ensures idx[k] < idx[l]
      {
        assert idx[l] == tail[l - 1] + 1;
        if k > 0 {
          assert idx[k] == tail[k - 1] + 1;
        }
      }
    } else {
      idx := shifted;
    }
  }

  /** Every position moved one place on. */
  function Shift(tail: seq<nat>): (r: seq<nat>)
    ensures |r| == |tail| && forall k :: 0 <= k < |tail| ==> r[k] == tail[k] + 1
  {
    seq(|tail|, k requires 0 <= k < |tail| => tail[k] + 1)
  }

  /** The completeness half of `OriginsCons`: every kept position is listed. */
  lemma OriginsConsComplete<A, B>(xs: seq<A>, f: A -> Option<B>, tail: seq<nat>, shifted: seq<nat>, idx: seq<nat>)
    requires |xs| > 0 && |shifted| == |tail|
    requires forall k :: 0 <= k < |tail| ==> shifted[k] == tail[k] + 1
    requires forall i :: 1 <= i < |xs| && f(xs[i]).Some? ==> i - 1 in tail
    requires idx == (if f(xs[0]).Some? then [0] else []) + shifted
    ensures forall i :: 0 <= i < |xs| && f(xs[i]).Some? ==> i in idx
  {
    forall i | 0 <= i < |xs| && f(xs[i]).Some? ensures i in idx {
      if i > 0 {
        var k :| 0 <= k < |tail| && tail[k] == i - 1;
        assert shifted[k] == i;
        assert shifted[k] in idx;
      }
    }
  }

  /** `FilterMapOrigins` for the elements after the first (a header line,
      say), with indices into the whole sequence. */
  lemma FilterMapOriginsAfterFirst<A, B>(xs: seq<A>, f: A -> Option<B>) returns (idx: seq<nat>)
    requires |xs| >= 1
    ensures |idx| == |FilterMap(xs[1..], f)| == CountKept(xs[1..], f)
    ensures forall k :: 0 <= k < |idx| ==>
              1 <= idx[k] < |xs| && f(xs[idx[k]]) == Some(FilterMap(xs[1..], f)[k])
    ensures forall k, l :: 0 <= k < l < |idx| ==> idx[k] < idx[l]
    ensures forall i :: 1 <= i < |xs| && f(xs[i]).Some? ==> i in idx
  {
    var body := xs[1..];
    var r := FilterMap(body, f);
    var origins := FilterMapOrigins(body, f);
    idx := Shift(origins);
    forall k | 0 <= k < |idx|
      ensures 1 <= idx[k] < |xs| && f(xs[idx[k]]) == Some(r[k])
    {
      assert body[origins[k]] == xs[idx[k]];
    }
    forall k, l | 0 <= k < l < |idx| ensures idx[k] < idx[l] {
      assert idx[k] == origins[k] + 1 && idx[l] == origins[l] + 1;
      assert origins[k] < origins[l];
    }
    AfterFirstComplete(xs, f, origins);
  }

  /** The completeness half of `FilterMapOriginsAfterFirst`. */
  lemma AfterFirstComplete<A, B>(xs: seq<A>, f: A -> Option<B>, origins: seq<nat>)
    requires |xs| >= 1
    requires forall i :: 0 <= i < |xs[1..]| && f(xs[1..][i]).Some? ==> i in origins
    ensures forall i :: 1 <= i < |xs| && f(xs[i]).Some? ==> i in Shift(origins)
  {
    var idx := Shift(origins);
    forall i | 1 <= i < |xs| && f(xs[i]).Some? ensures i in idx {
      assert xs[1..][i - 1] == xs[i];
      var k :| 0 <= k < |origins| && origins[k] == i - 1;
      assert idx[k] == i;
    }
  }

  /** The last `k` elements of `xs` (all of them when there are fewer):
      JavaScript's `xs.slice(-k)` and Python's `xs[-k:]` for `k > 0`. */
  function TakeLast<T>(xs: seq<T>, k: nat): (r: seq<T>)
    ensures |r| == if |xs| < k then |xs| else k
    ensures xs == xs[..|xs| - |r|] + r
  {
    if |xs| > k then xs[|xs| - k..] else xs
  }

  /** Sum of a sequence of reals, left to right. */
  function Sum(xs: seq<real>): real
  {
    if |xs| == 0 then 0.0 else xs[0] + Sum(xs[1..])
  }

  lemma {:induction false} SumAppend(a: seq<real>, b: seq<real>)
    ensures Sum(a + b) == Sum(a) + Sum(b)
    decreases |a|
  {
    if |a| == 0 {
      assert a + b == b;
    } else {
      assert (a + b)[1..] == a[1..] + b;
      SumAppend(a[1..], b);
    }
  }

  /** Arithmetic mean; 0 for the empty sequence (never used on one). */
  function Mean(xs: seq<real>): real
  {
    if |xs| == 0 then 0.0 else Sum(xs) / (|xs| as real)
  }

  /** Every element lies strictly below `bound`: the sum does as well, scaled. */
  lemma {:induction false} SumBelow(xs: seq<real>, bound: real)
    requires forall i :: 0 <= i < |xs| ==> xs[i] < bound
    ensures |xs| > 0 ==> Sum(xs) < (|xs| as real) * bound
    ensures Sum(xs) <= (|xs| as real) * bound
    decreases |xs|
  {
    if |xs| > 0 {
      SumBelow(xs[1..], bound);
    }
  }

  /** Every element lies strictly above `bound`: the sum does as well, scaled. */
  lemma {:induction false} SumAbove(xs: seq<real>, bound: real)
    requires forall i :: 0 <= i < |xs| ==> xs[i] > bound
    ensures |xs| > 0 ==> Sum(xs) > (|xs| as real) * bound
    ensures Sum(xs) >= (|xs| as real) * bound
    decreases |xs|
  {
    if |xs| > 0 {
      SumAbove(xs[1..], bound);
    }
  }
}
