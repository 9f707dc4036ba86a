/** One processing pass over a full window, shared by the heart-rate and the
    respiration pipelines of `update_frame`: bandpass filter, standardise,
    smooth, find peaks, turn peak spacing into a rate. The two pipelines
    differ only in their band and in the minimum peak distance. */
module Pipeline {
  import opened Numerics
  import opened Smoothing
  import opened Bandpass
  import opened Rate

  /** `find_peaks(signal, distance=d)`, reduced to the peak indices. */
  type PeakFinder = (seq<real>, real) -> seq<int>

  /** The library routines the pipeline calls. */
  datatype Collaborators = Collaborators(sqrt: real -> real, filter: ZeroPhaseFilter, findPeaks: PeakFinder)

  /** What the model takes for granted about the library routines: roots are
      not negative, zero-phase filtering keeps the length, and peaks come in
      index order, neighbours at least the requested distance apart. */
  ghost predicate WellBehaved(env: Collaborators)
  {
    && RootNonNegative(env.sqrt)
    && PreservesLength(env.filter)
    && forall x, d :: StrictlyIncreasing(env.findPeaks(x, d)) && SpacedBy(env.findPeaks(x, d), d)
  }

  /** The constants that tell the two pipelines apart: the pass band in Hz
      and the divisor that turns the frame rate into the peak distance. */
  datatype PipelineSpec = PipelineSpec(lowcut: real, highcut: real, peakDistanceDivisor: real)

  /** 0.75 to 3.0 Hz, peaks at least `fps / 3` samples apart. */
  const HeartSpec := PipelineSpec(0.75, 3.0, 3.0)

  /** 0.1 to 0.5 Hz, peaks at least `fps / 0.5` samples apart. */
  const RespirationSpec := PipelineSpec(0.1, 0.5, 0.5)

  /** `int(fps / 2)`. */
  function SmoothingWindow(fps: real): int
  {
    Trunc(fps / 2.0)
  }

  function PeakDistance(fps: real, spec: PipelineSpec): real
    requires spec.peakDistanceDivisor != 0.0
  {
    fps / spec.peakDistanceDivisor
  }

  lemma SumOfMean(s: seq<real>)
    requires 0 < |s|
    ensures Sum(s) - |s| as real * Mean(s) == 0.0
  {
  }

  /** `(x - mean(x)) / (std(x) + 1e-6)`: the result is centred on zero. */
  function Standardise(sqrt: real -> real, x: seq<real>): (z: seq<real>)
    requires RootNonNegative(sqrt)
    requires 0 < |x|
    ensures |z| == |x|
    ensures Sum(z) == 0.0
  {
    var scale := Std(sqrt, x) + Epsilon;
    SumShiftScale(x, Mean(x), scale);
    SumOfMean(x);
    ShiftScale(x, Mean(x), scale)
  }

  /** The outcome of one full window: `--` when there was nothing to filter,
      otherwise the rate per minute and the smoothed waveform. */
  datatype Report = Placeholder | Estimate(rate: real, waveform: seq<real>)

  /** One processing pass, from the raw window to the report. */
  function Analyse(env: Collaborators, raw: seq<real>, fps: real, spec: PipelineSpec): (rep: Report)
    requires fps != 0.0 && spec.peakDistanceDivisor != 0.0
    requires WellBehaved(env)
    // the placeholder appears exactly for an empty window
    ensures rep.Placeholder? <==> |raw| == 0
    // the waveform is the window filtered, standardised and smoothed, in that order
    ensures rep.Estimate? ==>
      var filtered := BandpassFilter(env.filter, raw, spec.lowcut, spec.highcut, fps, DefaultOrder);
      |filtered| == |raw| &&
      rep.waveform == MovingAverage(Standardise(env.sqrt, filtered), SmoothingWindow(fps))
    // the rate is the rate formula applied to the peaks of the waveform
    ensures rep.Estimate? ==> rep.rate == RatePerMinute(env.findPeaks(rep.waveform, PeakDistance(fps, spec)), fps)
    // the waveform is the window, trimmed only by the smoothing edges
    ensures rep.Estimate? ==>
      |rep.waveform| == (if 0 < SmoothingWindow(fps) <= |raw| then |raw| - SmoothingWindow(fps) + 1 else |raw|)
    // zero is reported exactly when fewer than two peaks were found in it
    ensures rep.Estimate? ==>
      (rep.rate == 0.0 <==> |env.findPeaks(rep.waveform, PeakDistance(fps, spec))| < 2)
    // the minimum peak distance caps the rate at 60 times the divisor
    ensures rep.Estimate? && 0.0 < fps && 0.0 < spec.peakDistanceDivisor ==>
      0.0 <= rep.rate <= SecondsPerMinute * spec.peakDistanceDivisor
  {
    var filtered := BandpassFilter(env.filter, raw, spec.lowcut, spec.highcut, fps, DefaultOrder);
    if |filtered| > 0 then
      var smoothed := MovingAverage(Standardise(env.sqrt, filtered), SmoothingWindow(fps));
      var rate :=
        if |smoothed| > 0 then
          var peaks := env.findPeaks(smoothed, PeakDistance(fps, spec));
          SpecCeiling(peaks, fps, spec);
          RatePerMinute(peaks, fps)
        else
          0.0;
      Estimate(rate, smoothed)
    else
      Placeholder
  }

  /** With peaks `fps / divisor` apart the rate is at most `60 * divisor`:
      180 beats per minute for the heart, 30 breaths for respiration. */
  lemma SpecCeiling(peaks: seq<int>, fps: real, spec: PipelineSpec)
    requires fps != 0.0 && spec.peakDistanceDivisor != 0.0
    requires StrictlyIncreasing(peaks) && SpacedBy(peaks, PeakDistance(fps, spec))
    ensures 0.0 < fps && 0.0 < spec.peakDistanceDivisor ==>
      RatePerMinute(peaks, fps) <= SecondsPerMinute * spec.peakDistanceDivisor
  {
    if 0.0 < fps && 0.0 < spec.peakDistanceDivisor {
      RateCeiling(peaks, fps, PeakDistance(fps, spec));
      var d := spec.peakDistanceDivisor;
      assert (fps / d) * d == fps;
      assert SecondsPerMinute * fps / (fps / d) == SecondsPerMinute * d;
    }
  }
}
