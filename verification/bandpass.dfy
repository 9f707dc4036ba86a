/** The validation policy of `bandpass_filter_signal`: cutoffs are normalised
    by the Nyquist frequency, rejected when they collapse, clamped into
    `[0.01, 0.99]` when out of range, and only then handed to the filter
    library. The Butterworth design and the forward-backward application are
    library code; they are a parameter that either yields a signal or raises. */
module Bandpass {
  import opened Numerics

  /** Outcome of designing and applying the library filter. */
  datatype FilterRun = Filtered(output: seq<real>) | DesignError

  /** `butter(order, [low, high], btype='band')` followed by `filtfilt`. */
  type ZeroPhaseFilter = (nat, real, real, seq<real>) -> FilterRun

  /** Zero-phase filtering keeps the sample count. */
  ghost predicate PreservesLength(filter: ZeroPhaseFilter)
  {
    forall order, low, high, x ::
      filter(order, low, high, x).Filtered? ==> |filter(order, low, high, x).output| == |x|
  }

  const DefaultOrder: nat := 5
  const ClampLow: real := 0.01
  const ClampHigh: real := 0.99

  /** The band handed to the filter design, or the decision to skip it. */
  datatype Band = Skip | Design(low: real, high: real)

  function Nyquist(fs: real): real
  {
    0.5 * fs
  }

  predicate InOpenUnit(x: real)
  {
    0.0 < x < 1.0
  }

  function ChooseBand(lowcut: real, highcut: real, fs: real): (b: Band)
    requires fs != 0.0
    // the design call only ever sees a proper band inside (0, 1)
    ensures b.Design? ==> 0.0 < b.low < b.high < 1.0
    // skipped exactly when the band is empty, or leaves (0, 1) and clamping
    // collapses it (wholly at or below 0.01, or wholly at or above 0.99);
    // a narrow band inside (0, 1) is used as is, even below 0.01
    ensures var low, high := lowcut / Nyquist(fs), highcut / Nyquist(fs);
      b.Skip? <==> (low >= high || (!(InOpenUnit(low) && InOpenUnit(high)) && (high <= ClampLow || ClampHigh <= low)))
    // cutoffs already in range are used exactly as normalised
    ensures var low, high := lowcut / Nyquist(fs), highcut / Nyquist(fs);
      low < high && InOpenUnit(low) && InOpenUnit(high) ==> b == Design(low, high)
    // a clamped band lies in [0.01, 0.99]
    ensures var low, high := lowcut / Nyquist(fs), highcut / Nyquist(fs);
      b.Design? && !(InOpenUnit(low) && InOpenUnit(high)) ==> ClampLow <= b.low && b.high <= ClampHigh
    // and is the pair of normalised cutoffs, each clipped into [0.01, 0.99]
    ensures var low, high := lowcut / Nyquist(fs), highcut / Nyquist(fs);
      b.Design? && !(InOpenUnit(low) && InOpenUnit(high)) ==>
        b == Design(Clip(low, ClampLow, ClampHigh), Clip(high, ClampLow, ClampHigh))
  {
    var low := lowcut / Nyquist(fs);
    var high := highcut / Nyquist(fs);
    if low >= high then
      Skip
    else if !(InOpenUnit(low) && InOpenUnit(high)) then
      var low', high' := Clip(low, ClampLow, ClampHigh), Clip(high, ClampLow, ClampHigh);
      if low' >= high' then Skip else Design(low', high')
    else
      Design(low, high)
  }

  /** For a positive sample rate the first rejection is simply `lowcut >= highcut`. */
  lemma ChooseBandRejectsInvertedCutoffs(lowcut: real, highcut: real, fs: real)
    requires 0.0 < fs
    ensures lowcut / Nyquist(fs) >= highcut / Nyquist(fs) <==> lowcut >= highcut
    ensures lowcut >= highcut ==> ChooseBand(lowcut, highcut, fs) == Skip
  {
    var n := Nyquist(fs);
    assert 0.0 < n;
    assert lowcut / n - highcut / n == (lowcut - highcut) / n;
  }

  /** `bandpass_filter_signal(signal, lowcut, highcut, fs, order)`. */
  function BandpassFilter(filter: ZeroPhaseFilter, signal: seq<real>, lowcut: real, highcut: real,
                          fs: real, order: nat): (y: seq<real>)
    requires fs != 0.0
    requires PreservesLength(filter)
    ensures |y| == |signal|
    // the input comes back unchanged when the band is rejected
    ensures ChooseBand(lowcut, highcut, fs).Skip? ==> y == signal
    // an accepted band is filtered: the result is the library's output on the chosen band ...
    ensures var b := ChooseBand(lowcut, highcut, fs);
      b.Design? && filter(order, b.low, b.high, signal).Filtered? ==> y == filter(order, b.low, b.high, signal).output
    // ... or the input, when the library raises
    ensures var b := ChooseBand(lowcut, highcut, fs);
      b.Design? && filter(order, b.low, b.high, signal).DesignError? ==> y == signal
  {
    match ChooseBand(lowcut, highcut, fs)
    case Skip => signal
    case Design(low, high) =>
      match filter(order, low, high, signal)
      case Filtered(out) => out
      case DesignError => signal
  }

  /** Cutoffs strictly between 0 and the Nyquist frequency, in order, reach
      the filter library exactly as requested, normalised and unclamped. */
  lemma RequestedBandIsUsed(filter: ZeroPhaseFilter, signal: seq<real>, lowcut: real, highcut: real,
                            fs: real, order: nat)
    requires PreservesLength(filter)
    requires 0.0 < lowcut < highcut < Nyquist(fs)
    ensures fs != 0.0
    ensures ChooseBand(lowcut, highcut, fs) == Design(lowcut / Nyquist(fs), highcut / Nyquist(fs))
    ensures var low, high := lowcut / Nyquist(fs), highcut / Nyquist(fs);
      filter(order, low, high, signal).Filtered? ==>
        BandpassFilter(filter, signal, lowcut, highcut, fs, order) == filter(order, low, high, signal).output
  {
    var n := Nyquist(fs);
    NormaliseBelow(lowcut, highcut, n);
  }

  lemma NormaliseBelow(a: real, b: real, n: real)
    requires 0.0 < a < b < n
    ensures 0.0 < a / n < b / n < 1.0
  {
    assert b / n - a / n == (b - a) / n;
    assert n / n - b / n == (n - b) / n;
    assert n / n == 1.0;
  }
}
