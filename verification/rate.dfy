/** The rate formula of `update_frame`: peaks in the smoothed waveform are
    turned into intervals in seconds, `diff(peaks) / fps`, and the rate per
    minute is `60 / mean(intervals)`, or `0` when there is no interval. The
    peak search itself is library code; its indices arrive as input. */
module Rate {
  import opened Numerics

  /** `np.diff(p)`: the gap in samples between neighbouring peaks. */
  function Gaps(p: seq<int>): (g: seq<int>)
    ensures |g| == if |p| == 0 then 0 else |p| - 1
  {
    if |p| < 2 then [] else seq(|p| - 1, i requires 0 <= i < |p| - 1 => p[i + 1] - p[i])
  }

  /** Peak indices as the peak search reports them: each after the one before. */
  ghost predicate StrictlyIncreasing(p: seq<int>)
  {
    forall i :: 0 <= i < |Gaps(p)| ==> 0 < Gaps(p)[i]
  }

  /** Neighbouring peaks are at least `distance` samples apart. */
  ghost predicate SpacedBy(p: seq<int>, distance: real)
  {
    forall i :: 0 <= i < |Gaps(p)| ==> distance <= Gaps(p)[i] as real
  }

  const SecondsPerMinute: real := 60.0

  /** `np.diff(peaks) / fps`. */
  function Intervals(peaks: seq<int>, fps: real): (iv: seq<real>)
    requires fps != 0.0
    ensures |iv| == |Gaps(peaks)|
  {
    if |peaks| < 2 then []
    else seq(|peaks| - 1, i requires 0 <= i < |peaks| - 1 => (peaks[i + 1] - peaks[i]) as real / fps)
  }

  lemma SumOfQuotients(x: real, y: real, fps: real)
    requires fps != 0.0
    ensures x / fps + y / fps == (x + y) / fps
  {
  }

  /** The intervals add up to the time from the first peak to the last. */
  lemma {:induction false} IntervalsTelescope(peaks: seq<int>, fps: real)
    requires fps != 0.0
    requires 2 <= |peaks|
    ensures Sum(Intervals(peaks, fps)) == (peaks[|peaks| - 1] - peaks[0]) as real / fps
  {
    var iv := Intervals(peaks, fps);
    if |peaks| == 2 {
      assert iv[1..] == [];
    } else {
      var rest := peaks[1..];
      assert iv[1..] == Intervals(rest, fps);
      IntervalsTelescope(rest, fps);
      assert rest[|rest| - 1] == peaks[|peaks| - 1];
      SumOfQuotients((peaks[1] - peaks[0]) as real, (peaks[|peaks| - 1] - peaks[1]) as real, fps);
    }
  }

  /** Peaks at least `distance` apart span at least `n * distance` over `n` gaps. */
  lemma {:induction false} SpanAtLeast(peaks: seq<int>, distance: real)
    requires 1 <= |peaks|
    requires SpacedBy(peaks, distance)
    ensures (|peaks| - 1) as real * distance <= (peaks[|peaks| - 1] - peaks[0]) as real
  {
    if |peaks| > 1 {
      var init := peaks[..|peaks| - 1];
      assert forall i :: 0 <= i < |Gaps(init)| ==> Gaps(init)[i] == Gaps(peaks)[i];
      assert distance <= Gaps(peaks)[|peaks| - 2] as real;
      SpanAtLeast(init, distance);
      StepUp((|peaks| - 2) as real, distance, (init[|init| - 1] - init[0]) as real,
             Gaps(peaks)[|peaks| - 2] as real);
    }
  }

  lemma StepUp(m: real, d: real, span: real, gap: real)
    requires m * d <= span && d <= gap
    ensures (m + 1.0) * d <= span + gap
  {
  }

  /** Strictly increasing peaks have a positive span. */
  lemma IncreasingSpan(peaks: seq<int>)
    requires 2 <= |peaks|
    requires StrictlyIncreasing(peaks)
    ensures 0 < peaks[|peaks| - 1] - peaks[0]
  {
    SpanAtLeast(peaks, 1.0);
  }

  /** With `n` intervals summing to `span / fps`, `60 / mean` is `60 * fps * n / span`. */
  lemma RateOfMean(span: real, n: real, fps: real)
    requires 0.0 < span && 1.0 <= n && fps != 0.0
    ensures (span / fps) / n != 0.0
    ensures SecondsPerMinute / ((span / fps) / n) == SecondsPerMinute * fps * n / span
    ensures SecondsPerMinute * fps * n / span * span == SecondsPerMinute * fps * n
    ensures 0.0 < fps ==> 0.0 < SecondsPerMinute * fps * n / span
  {
    var m := (span / fps) / n;
    assert m * fps * n == span;
  }

  /** The rate per minute for the given peaks at `fps` samples per second. */
  function RatePerMinute(peaks: seq<int>, fps: real): (bpm: real)
    requires fps != 0.0
    requires StrictlyIncreasing(peaks)
    ensures 2 <= |peaks| ==> peaks[0] < peaks[|peaks| - 1]
    // zero is reported exactly when fewer than two peaks were found
    ensures bpm == 0.0 <==> |peaks| < 2
    // the mean interval telescopes to the span between the outer peaks
    ensures 2 <= |peaks| ==>
      bpm == SecondsPerMinute * fps * (|peaks| - 1) as real / (peaks[|peaks| - 1] - peaks[0]) as real
    ensures 2 <= |peaks| ==>
      bpm * (peaks[|peaks| - 1] - peaks[0]) as real == SecondsPerMinute * fps * (|peaks| - 1) as real
    ensures 0.0 < fps ==> 0.0 <= bpm
  {
    var iv := Intervals(peaks, fps);
    if |iv| > 0 then
      MeanInterval(peaks, fps);
      SecondsPerMinute / Mean(iv)
    else
      0.0
  }

  /** The mean interval is the outer span over the number of gaps, and `60`
      over it is the closed form. */
  lemma MeanInterval(peaks: seq<int>, fps: real)
    requires fps != 0.0
    requires 2 <= |peaks|
    requires StrictlyIncreasing(peaks)
    ensures var span, n := (peaks[|peaks| - 1] - peaks[0]) as real, (|peaks| - 1) as real;
      && 0.0 < span
      && Mean(Intervals(peaks, fps)) == (span / fps) / n
      && Mean(Intervals(peaks, fps)) != 0.0
      && SecondsPerMinute / Mean(Intervals(peaks, fps)) == SecondsPerMinute * fps * n / span
      && SecondsPerMinute * fps * n / span * span == SecondsPerMinute * fps * n
      && (0.0 < fps ==> 0.0 < SecondsPerMinute * fps * n / span)
  {
    var span, n := (peaks[|peaks| - 1] - peaks[0]) as real, (|peaks| - 1) as real;
    IntervalsTelescope(peaks, fps);
    IncreasingSpan(peaks);
    assert Mean(Intervals(peaks, fps)) == (span / fps) / n;
    RateOfMean(span, n, fps);
  }

  /** A minimum peak distance caps the rate: at most `60 * fps / distance` per minute. */
  lemma RateCeiling(peaks: seq<int>, fps: real, distance: real)
    requires 0.0 < fps && 0.0 < distance
    requires StrictlyIncreasing(peaks)
    requires SpacedBy(peaks, distance)
    ensures RatePerMinute(peaks, fps) <= SecondsPerMinute * fps / distance
  {
    if 2 <= |peaks| {
      SpanAtLeast(peaks, distance);
      RateBound(RatePerMinute(peaks, fps), SecondsPerMinute * fps, (|peaks| - 1) as real,
                distance, (peaks[|peaks| - 1] - peaks[0]) as real);
    }
  }

  /** `bpm <= c / d` when `bpm * span == c * n` and the span covers `n` distances `d`. */
  lemma RateBound(bpm: real, c: real, n: real, d: real, span: real)
    requires 0.0 <= c && 0.0 < n && 0.0 < d && n * d <= span
    requires bpm * span == c * n
    ensures bpm <= c / d
  {
    assert c / d * d == c;
    assert bpm * (n * d) <= bpm * span;
  }
}
