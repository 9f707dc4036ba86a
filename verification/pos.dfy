/** The shape of `cpu_POS` (Plane-Orthogonal-to-Skin): each frame's colour is
    divided by its L2 norm, two projection weights are taken from the standard
    deviations of the normalised channels over the whole window, and the pulse
    trace is `S[t] - P[t]` with `S = alpha*R + G` and `P = beta*R + B`. */
module Pos {
  import opened Numerics

  /** Mean colour of one frame's region. */
  datatype Rgb = Rgb(r: real, g: real, b: real)

  /** The 3 x N matrix of colour traces, one column per frame. */
  datatype Channels = Channels(r: seq<real>, g: seq<real>, b: seq<real>)
  {
    /** The three traces are columns of one matrix. */
    predicate Aligned()
    {
      |r| == |g| == |b|
    }

    /** Appends one frame's colour as a new column. */
    function Push(c: Rgb): (m: Channels)
      ensures m.r == r + [c.r] && m.g == g + [c.g] && m.b == b + [c.b]
      ensures Aligned() ==> m.Aligned()
    {
      Channels(r + [c.r], g + [c.g], b + [c.b])
    }

    /** The frames of `other` after these. */
    function Append(other: Channels): (m: Channels)
      ensures m.r == r + other.r && m.g == g + other.g && m.b == b + other.b
      ensures Aligned() && other.Aligned() ==> m.Aligned()
    {
      Channels(r + other.r, g + other.g, b + other.b)
    }
  }

  const NoChannels := Channels([], [], [])

  /** The same frames in the opposite order. */
  function ReverseFrames(c: Channels): (v: Channels)
    ensures c.Aligned() ==> v.Aligned()
  {
    Channels(Reverse(c.r), Reverse(c.g), Reverse(c.b))
  }

  /** `np.linalg.norm(C, axis=0) + 1e-6` for one column. */
  function ColumnNorm(sqrt: real -> real, r: real, g: real, b: real): (n: real)
    requires RootNonNegative(sqrt)
    ensures Epsilon <= n
  {
    sqrt(Square(r) + Square(g) + Square(b)) + Epsilon
  }

  /** `C / (np.linalg.norm(C, axis=0) + 1e-6)`: each column divided by its own norm. */
  function Normalise(sqrt: real -> real, c: Channels): (n: Channels)
    requires RootNonNegative(sqrt)
    requires c.Aligned()
    ensures n.Aligned() && |n.r| == |c.r|
  {
    Channels(
      seq(|c.r|, t requires 0 <= t < |c.r| => c.r[t] / ColumnNorm(sqrt, c.r[t], c.g[t], c.b[t])),
      seq(|c.r|, t requires 0 <= t < |c.r| => c.g[t] / ColumnNorm(sqrt, c.r[t], c.g[t], c.b[t])),
      seq(|c.r|, t requires 0 <= t < |c.r| => c.b[t] / ColumnNorm(sqrt, c.r[t], c.g[t], c.b[t])))
  }

  /** `std(R) / (std(G) + 1e-6)` over the whole window. */
  function Alpha(sqrt: real -> real, n: Channels): real
    requires RootNonNegative(sqrt)
    requires n.Aligned() && 0 < |n.r|
  {
    Std(sqrt, n.r) / (Std(sqrt, n.g) + Epsilon)
  }

  /** `std(R) / (std(B) + 1e-6)` over the whole window. */
  function Beta(sqrt: real -> real, n: Channels): real
    requires RootNonNegative(sqrt)
    requires n.Aligned() && 0 < |n.r|
  {
    Std(sqrt, n.r) / (Std(sqrt, n.b) + Epsilon)
  }

  /** One pulse sample, `(alpha*R + G) - (beta*R + B)` gathered by channel. */
  function PulseSample(alpha: real, beta: real, r: real, g: real, b: real): real
  {
    (alpha - beta) * r + g - b
  }

  /** The projection onto the plane orthogonal to the skin tone, for given
      weights: `S = alpha*R + G`, `P = beta*R + B`, `H[t] = S[t] - P[t]`. */
  function Project(alpha: real, beta: real, n: Channels): (h: seq<real>)
    requires n.Aligned()
    ensures |h| == |n.r|
    ensures forall t :: 0 <= t < |h| ==> h[t] == PulseSample(alpha, beta, n.r[t], n.g[t], n.b[t])
  {
    var s := seq(|n.r|, t requires 0 <= t < |n.r| => alpha * n.r[t] + n.g[t]);
    var p := seq(|n.r|, t requires 0 <= t < |n.r| => beta * n.r[t] + n.b[t]);
    seq(|n.r|, t requires 0 <= t < |n.r| => s[t] - p[t])
  }

  /** `cpu_POS`: one pulse sample per frame, with both weights computed once
      over the whole window. For an empty window numpy's `std` is NaN but the
      output is still the empty trace. */
  function PosProjection(sqrt: real -> real, c: Channels): (h: seq<real>)
    requires RootNonNegative(sqrt)
    requires c.Aligned()
    ensures |h| == |c.r|
    ensures 0 < |c.r| ==>
      var n := Normalise(sqrt, c);
      forall t :: 0 <= t < |h| ==> h[t] == PulseSample(Alpha(sqrt, n), Beta(sqrt, n), n.r[t], n.g[t], n.b[t])
  {
    if |c.r| == 0 then
      []
    else
      var n := Normalise(sqrt, c);
      Project(Alpha(sqrt, n), Beta(sqrt, n), n)
  }

  /** A window in which every frame has the same colour yields a flat pulse
      trace: the weights are shared by all frames, so equal columns project
      to equal samples. */
  lemma SteadyColourGivesFlatPulse(sqrt: real -> real, c: Channels)
    requires RootNonNegative(sqrt)
    requires c.Aligned() && 0 < |c.r|
    requires forall t :: 0 <= t < |c.r| ==> c.r[t] == c.r[0] && c.g[t] == c.g[0] && c.b[t] == c.b[0]
    ensures forall t :: 0 <= t < |c.r| ==> PosProjection(sqrt, c)[t] == PosProjection(sqrt, c)[0]
  {
    var n := Normalise(sqrt, c);
    forall t | 0 <= t < |c.r|
      ensures n.r[t] == n.r[0] && n.g[t] == n.g[0] && n.b[t] == n.b[0]
    {
    }
  }

  /** Normalisation works frame by frame, so it commutes with reversal. */
  lemma NormaliseReverse(sqrt: real -> real, c: Channels)
    requires RootNonNegative(sqrt)
    requires c.Aligned()
    ensures Normalise(sqrt, ReverseFrames(c)) == ReverseFrames(Normalise(sqrt, c))
  {
    var n, v := Normalise(sqrt, c), Normalise(sqrt, ReverseFrames(c));
    var last := |c.r| - 1;
    forall t | 0 <= t < |c.r|
      ensures v.r[t] == n.r[last - t] && v.g[t] == n.g[last - t] && v.b[t] == n.b[last - t]
    {
      assert ReverseFrames(c).r[t] == c.r[last - t];
      assert ReverseFrames(c).g[t] == c.g[last - t];
      assert ReverseFrames(c).b[t] == c.b[last - t];
    }
    assert v.r == Reverse(n.r);
    assert v.g == Reverse(n.g);
    assert v.b == Reverse(n.b);
  }

  /** With fixed weights the projection is frame by frame, so it commutes with reversal. */
  lemma ProjectReverse(alpha: real, beta: real, n: Channels)
    requires n.Aligned()
    ensures Project(alpha, beta, ReverseFrames(n)) == Reverse(Project(alpha, beta, n))
  {
    var h, v := Project(alpha, beta, n), Project(alpha, beta, ReverseFrames(n));
    forall t | 0 <= t < |v|
      ensures v[t] == Reverse(h)[t]
    {
      assert ReverseFrames(n).r[t] == n.r[|n.r| - 1 - t];
    }
  }

  /** The weights are statistics of the whole window: reversing the frames
      leaves them unchanged. */
  lemma WeightsReverse(sqrt: real -> real, n: Channels)
    requires RootNonNegative(sqrt)
    requires n.Aligned() && 0 < |n.r|
    ensures Alpha(sqrt, ReverseFrames(n)) == Alpha(sqrt, n)
    ensures Beta(sqrt, ReverseFrames(n)) == Beta(sqrt, n)
  {
    StdReverse(sqrt, n.r);
    StdReverse(sqrt, n.g);
    StdReverse(sqrt, n.b);
  }

  /** The weights are blind to frame order: playing the frames backwards
      plays the pulse trace backwards. */
  lemma PosCommutesWithReversal(sqrt: real -> real, c: Channels)
    requires RootNonNegative(sqrt)
    requires c.Aligned()
    ensures PosProjection(sqrt, ReverseFrames(c)) == Reverse(PosProjection(sqrt, c))
  {
    if 0 < |c.r| {
      var n := Normalise(sqrt, c);
      var v := ReverseFrames(n);
      calc {
        PosProjection(sqrt, ReverseFrames(c));
        { NormaliseReverse(sqrt, c); }
        Project(Alpha(sqrt, v), Beta(sqrt, v), v);
        { WeightsReverse(sqrt, n); }
        Project(Alpha(sqrt, n), Beta(sqrt, n), v);
        { ProjectReverse(Alpha(sqrt, n), Beta(sqrt, n), n); }
        Reverse(Project(Alpha(sqrt, n), Beta(sqrt, n), n));
        Reverse(PosProjection(sqrt, c));
      }
    }
  }
}
