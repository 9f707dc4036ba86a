/** The moving-average smoother of `utils/heart_rate.py`: a valid-mode
    convolution with a box kernel, guarded by a pass-through for windows that
    are not positive or do not fit in the signal. */
module Smoothing {
  import opened Numerics

  function Dot(x: seq<real>, y: seq<real>): real
    requires |x| == |y|
  {
    if |x| == 0 then 0.0 else x[0] * y[0] + Dot(x[1..], y[1..])
  }

  /** `np.convolve(a, v, mode='valid')` for a kernel no longer than the
      signal: output `k` is the kernel, flipped, laid over `a[k..k+|v|]`. */
  function ConvolveValid(a: seq<real>, v: seq<real>): (c: seq<real>)
    requires 0 < |v| <= |a|
    ensures |c| == |a| - |v| + 1
  {
    seq(|a| - |v| + 1, k requires 0 <= k <= |a| - |v| => Dot(a[k..k + |v|], Reverse(v)))
  }

  /** `np.ones(w) / w`. */
  function BoxKernel(w: nat): (v: seq<real>)
    requires 0 < w
    ensures |v| == w
  {
    Fill(w, 1.0 / w as real)
  }

  lemma {:induction false} DotFill(x: seq<real>, c: real)
    ensures Dot(x, Fill(|x|, c)) == c * Sum(x)
  {
    if |x| > 0 {
      assert Fill(|x|, c)[1..] == Fill(|x| - 1, c);
      DotFill(x[1..], c);
    }
  }

  /** Each output of the box convolution is the mean of its window. */
  lemma BoxConvolutionIsWindowMean(signal: seq<real>, w: nat)
    requires 0 < w <= |signal|
    ensures forall i :: 0 <= i < |signal| - w + 1 ==>
      ConvolveValid(signal, BoxKernel(w))[i] == Mean(signal[i..i + w])
  {
    assert Reverse(BoxKernel(w)) == BoxKernel(w);
    forall i | 0 <= i < |signal| - w + 1
      ensures ConvolveValid(signal, BoxKernel(w))[i] == Mean(signal[i..i + w])
    {
      DotFill(signal[i..i + w], 1.0 / w as real);
    }
  }

  /** `moving_average_filter(signal, window_size)`. */
  function MovingAverage(signal: seq<real>, windowSize: int): (r: seq<real>)
    ensures windowSize <= 0 || |signal| < windowSize ==> r == signal
    ensures 0 < windowSize <= |signal| ==> |r| == |signal| - windowSize + 1
    // a non-empty signal is never smoothed away
    ensures 0 < |signal| ==> 0 < |r| <= |signal|
    ensures 0 < windowSize <= |signal| ==>
      forall i :: 0 <= i < |r| ==> r[i] == Mean(signal[i..i + windowSize])
  {
    if windowSize <= 0 || |signal| < windowSize then
      signal
    else
      BoxConvolutionIsWindowMean(signal, windowSize);
      ConvolveValid(signal, BoxKernel(windowSize))
  }

  /** A constant signal smooths to the same constant (only the edges are trimmed). */
  lemma SmoothingKeepsConstant(signal: seq<real>, windowSize: int, c: real)
    requires forall i :: 0 <= i < |signal| ==> signal[i] == c
    ensures forall i :: 0 <= i < |MovingAverage(signal, windowSize)| ==>
      MovingAverage(signal, windowSize)[i] == c
  {
    var r := MovingAverage(signal, windowSize);
    if 0 < windowSize <= |signal| {
      forall i | 0 <= i < |r|
        ensures r[i] == c
      {
        SumConstant(signal[i..i + windowSize], c);
      }
    }
  }
}
