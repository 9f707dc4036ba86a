/** The per-frame state machine of `HeartRateMonitor`: each frame may add one
    colour sample and one shoulder-height sample; a pipeline whose buffer has
    reached ten seconds of frames is processed and its buffer emptied. The
    two pipelines share the frame rate and nothing else. Camera, detectors and
    the display stay outside: a frame arrives as its size, the optional
    detections, and the mean colour of any region of it. */
module Monitor {
  import opened Common
  import opened Numerics
  import opened Pos
  import opened FrameRoi
  import opened Pipeline

  /** The frame rate assumed when the camera reports 0. */
  const DefaultFps: real := 30.0

  /** Length of one processing window in seconds. */
  const WindowSeconds: real := 10.0

  /** The fall-back in the constructor: a reported rate of exactly 0 becomes 30. */
  function EffectiveFps(reported: real): (fps: real)
    ensures fps != 0.0
    ensures reported != 0.0 ==> fps == reported
    ensures reported == 0.0 ==> fps == DefaultFps
  {
    if reported == 0.0 then DefaultFps else reported
  }

  /** What the monitor sees of one camera frame. */
  datatype Frame = Frame(
    width: nat,
    height: nat,
    face: Option<FaceBox>,
    shoulders: Option<ShoulderPixels>,
    // mean colour of a region, with R from channel 2 and B from channel 0 of the BGR frame
    meanColour: Rect -> Rgb)

  /** The state kept between frames. */
  datatype State = State(fps: real, rgb: Channels, resp: seq<int>, shoulderBox: Option<Box>)

  /** What one frame produces for each pipeline: nothing, or the report of a
      window that has just been processed. */
  datatype FrameOutput = FrameOutput(heart: Option<Report>, respiration: Option<Report>)

  /** `len(buffer) >= fps * 10`. */
  predicate WindowDue(n: int, fps: real)
  {
    n as real >= fps * WindowSeconds
  }

  /** The state every frame starts and ends in: a usable frame rate, colour
      traces of equal length and, for a positive rate, no buffer holding a
      full window. */
  ghost predicate Valid(m: State)
  {
    && m.fps != 0.0
    && m.rgb.Aligned()
    && (0.0 < m.fps ==> !WindowDue(|m.rgb.g|, m.fps) && !WindowDue(|m.resp|, m.fps))
  }

  /** `__init__`: the effective rate, empty buffers and no shoulder box.
      Starting the frame timer divides 1000 by `int(fps)`, which raises when
      the rate truncates to 0, so no monitor is built for such a rate. */
  function Init(reportedFps: real): (m: Option<State>)
    // the constructor fails exactly for a non-zero rate strictly between -1 and 1
    ensures m.None? <==> Trunc(EffectiveFps(reportedFps)) == 0
    ensures m.None? <==> reportedFps != 0.0 && -1.0 < reportedFps < 1.0
    ensures m.Some? ==> Valid(m.value) && m.value.fps == EffectiveFps(reportedFps)
    ensures m.Some? ==> m.value.rgb == NoChannels && m.value.resp == [] && m.value.shoulderBox.None?
  {
    var fps := EffectiveFps(reportedFps);
    if Trunc(fps) == 0 then None else Some(State(fps, NoChannels, [], None))
  }

  /** A face was found and its clamped forehead region holds pixels. */
  predicate ForeheadTaken(f: Frame)
  {
    f.face.Some? && ForeheadSampled(f.face.value, f.width, f.height)
  }

  /** The mean colour of the forehead region of a frame that has one. */
  function ForeheadColour(f: Frame): Rgb
    requires ForeheadTaken(f)
  {
    f.meanColour(ForeheadRect(f.face.value, f.width, f.height))
  }

  /** The colour samples one frame contributes: one column or none. */
  function FrameColours(f: Frame): (c: Channels)
    ensures c.Aligned() && |c.r| == (if ForeheadTaken(f) then 1 else 0)
  {
    if ForeheadTaken(f) then NoChannels.Push(ForeheadColour(f)) else NoChannels
  }

  /** The colour buffers after the forehead step of a frame. */
  function SampleForehead(rgb: Channels, f: Frame): (c: Channels)
    requires rgb.Aligned()
    ensures c.Aligned()
    ensures |c.g| == |rgb.g| + (if ForeheadTaken(f) then 1 else 0)
    // the frame's colour is appended to the three traces, or nothing changes
    ensures ForeheadTaken(f) ==>
      c.r == rgb.r + [ForeheadColour(f).r] && c.g == rgb.g + [ForeheadColour(f).g] && c.b == rgb.b + [ForeheadColour(f).b]
    ensures !ForeheadTaken(f) ==> c == rgb
  {
    if ForeheadTaken(f) then rgb.Push(ForeheadColour(f)) else rgb
  }

  /** The shoulder samples one frame contributes: one row or none. */
  function FrameRows(f: Frame): (s: seq<int>)
    ensures |s| == (if f.shoulders.Some? then 1 else 0)
  {
    if f.shoulders.Some? then [f.shoulders.value.yAverage] else []
  }

  /** The shoulder buffer and box after the respiration step of a frame. */
  function SampleShoulders(resp: seq<int>, box: Option<Box>, f: Frame): (r: (seq<int>, Option<Box>))
    ensures |r.0| == |resp| + (if f.shoulders.Some? then 1 else 0)
    // the shoulder row is appended and the box follows the pose, or nothing changes
    ensures f.shoulders.Some? ==>
      r.0 == resp + [f.shoulders.value.yAverage] && r.1 == Some(ShoulderBox(f.shoulders.value, f.width, f.height))
    ensures f.shoulders.None? ==> r == (resp, box)
  {
    match f.shoulders
    case None => (resp, box)
    case Some(s) => (resp + [s.yAverage], Some(ShoulderBox(s, f.width, f.height)))
  }

  function AsReals(s: seq<int>): (x: seq<real>)
    ensures |x| == |s|
    ensures forall i :: 0 <= i < |s| ==> x[i] == s[i] as real
  {
    seq(|s|, i requires 0 <= i < |s| => s[i] as real)
  }

  /** The colour pipeline processes its window on this frame. */
  predicate HeartDue(m: State, f: Frame)
    requires m.rgb.Aligned()
  {
    WindowDue(|SampleForehead(m.rgb, f).g|, m.fps)
  }

  /** The respiration pipeline processes its window on this frame. */
  predicate RespirationDue(m: State, f: Frame)
  {
    WindowDue(|SampleShoulders(m.resp, m.shoulderBox, f).0|, m.fps)
  }

  /** The state after one frame: samples appended, full buffers emptied. */
  function Advance(m: State, f: Frame): (n: State)
    requires Valid(m)
    ensures Valid(n) && n.fps == m.fps
    // a processed buffer is emptied
    ensures HeartDue(m, f) ==> n.rgb == NoChannels
    ensures RespirationDue(m, f) ==> n.resp == []
    // any other buffer gains exactly this frame's sample
    ensures !HeartDue(m, f) ==> n.rgb == m.rgb.Append(FrameColours(f))
    ensures !RespirationDue(m, f) ==> n.resp == m.resp + FrameRows(f)
    // the shoulder box follows the latest pose and is kept when none is found
    ensures f.shoulders.None? ==> n.shoulderBox == m.shoulderBox
    ensures f.shoulders.Some? ==> n.shoulderBox == Some(ShoulderBox(f.shoulders.value, f.width, f.height))
  {
    var rgb := SampleForehead(m.rgb, f);
    var (resp, box) := SampleShoulders(m.resp, m.shoulderBox, f);
    State(m.fps, if HeartDue(m, f) then NoChannels else rgb, if RespirationDue(m, f) then [] else resp, box)
  }

  /** The reports of one frame: a pipeline whose window is due analyses the
      buffer together with this frame's sample. */
  function Outputs(m: State, f: Frame, env: Collaborators): (out: FrameOutput)
    requires Valid(m) && WellBehaved(env)
    ensures out.heart.Some? <==> HeartDue(m, f)
    ensures out.respiration.Some? <==> RespirationDue(m, f)
    // the report is the analysis of the POS trace of the buffered colours with this frame's colour
    ensures HeartDue(m, f) ==>
      out.heart == Some(Analyse(env, PosProjection(env.sqrt, m.rgb.Append(FrameColours(f))), m.fps, HeartSpec))
    // the report is the analysis of the buffered shoulder rows with this frame's row
    ensures RespirationDue(m, f) ==>
      out.respiration == Some(Analyse(env, AsReals(m.resp + FrameRows(f)), m.fps, RespirationSpec))
    // at a positive rate a processed window always yields a rate, within the pipeline's ceiling
    ensures 0.0 < m.fps && out.heart.Some? ==> out.heart.value.Estimate? && 0.0 <= out.heart.value.rate <= 180.0
    ensures 0.0 < m.fps && out.respiration.Some? ==>
      out.respiration.value.Estimate? && 0.0 <= out.respiration.value.rate <= 30.0
  {
    var rgb := SampleForehead(m.rgb, f);
    var resp := SampleShoulders(m.resp, m.shoulderBox, f).0;
    assert rgb == m.rgb.Append(FrameColours(f));
    assert resp == m.resp + FrameRows(f);
    FrameOutput(
      if HeartDue(m, f) then Some(Analyse(env, PosProjection(env.sqrt, rgb), m.fps, HeartSpec)) else None,
      if RespirationDue(m, f) then Some(Analyse(env, AsReals(resp), m.fps, RespirationSpec)) else None)
  }

  /** `update_frame` on one frame. */
  function Step(m: State, f: Frame, env: Collaborators): (r: (State, FrameOutput))
    requires Valid(m) && WellBehaved(env)
    ensures Valid(r.0) && r.0.fps == m.fps
    // a window is processed exactly when its buffer, with this frame's sample, reaches fps * 10
    ensures r.1.heart.Some? <==> WindowDue(|m.rgb.g| + (if ForeheadTaken(f) then 1 else 0), m.fps)
    ensures r.1.respiration.Some? <==> WindowDue(|m.resp| + (if f.shoulders.Some? then 1 else 0), m.fps)
    // a processed buffer is emptied; otherwise it has grown by at most this frame's sample
    ensures r.1.heart.Some? ==> |r.0.rgb.g| == 0
    ensures r.1.heart.None? ==> |r.0.rgb.g| == |m.rgb.g| + (if ForeheadTaken(f) then 1 else 0)
    ensures r.1.respiration.Some? ==> r.0.resp == []
    ensures r.1.respiration.None? ==> r.0.resp == m.resp + (if f.shoulders.Some? then [f.shoulders.value.yAverage] else [])
    // the buffers only ever gain the sample of this frame
    ensures r.1.heart.None? && ForeheadTaken(f) ==>
      var c := f.meanColour(ForeheadRect(f.face.value, f.width, f.height));
      r.0.rgb.r == m.rgb.r + [c.r] && r.0.rgb.g == m.rgb.g + [c.g] && r.0.rgb.b == m.rgb.b + [c.b]
    ensures r.1.heart.None? && !ForeheadTaken(f) ==> r.0.rgb == m.rgb
    // the shoulder box follows the latest pose and is kept when none is found
    ensures f.shoulders.None? ==> r.0.shoulderBox == m.shoulderBox
    ensures f.shoulders.Some? ==> r.0.shoulderBox == Some(ShoulderBox(f.shoulders.value, f.width, f.height))
    // a report analyses exactly the buffered samples followed by this frame's sample
    ensures r.1.heart.Some? ==>
      r.1.heart == Some(Analyse(env, PosProjection(env.sqrt, m.rgb.Append(FrameColours(f))), m.fps, HeartSpec))
    ensures r.1.respiration.Some? ==>
      r.1.respiration == Some(Analyse(env, AsReals(m.resp + FrameRows(f)), m.fps, RespirationSpec))
    // at a positive rate a processed window always yields a rate, within the pipeline's ceiling
    ensures 0.0 < m.fps && r.1.heart.Some? ==> r.1.heart.value.Estimate? && 0.0 <= r.1.heart.value.rate <= 180.0
    ensures 0.0 < m.fps && r.1.respiration.Some? ==>
      r.1.respiration.value.Estimate? && 0.0 <= r.1.respiration.value.rate <= 30.0
  {
    (Advance(m, f), Outputs(m, f, env))
  }

  /** At a positive rate the buffers fill one sample at a time and are checked
      after every frame, so each processed window holds exactly the least
      whole number of samples not below `fps * 10`, and the frame that
      completes it is one that added a sample. */
  lemma ProcessedWindowsHaveExactLength(m: State, f: Frame)
    requires Valid(m) && 0.0 < m.fps
    ensures HeartDue(m, f) ==> ForeheadTaken(f) && |m.rgb.g| + 1 == Ceil(m.fps * WindowSeconds)
    ensures RespirationDue(m, f) ==> f.shoulders.Some? && |m.resp| + 1 == Ceil(m.fps * WindowSeconds)
  {
  }

  /** The heart-rate pipeline does not look at the shoulders or at the
      respiration buffer. */
  lemma HeartIgnoresRespiration(m: State, f: Frame, env: Collaborators,
                                resp: seq<int>, box: Option<Box>, shoulders: Option<ShoulderPixels>)
    requires Valid(m) && Valid(m.(resp := resp, shoulderBox := box)) && WellBehaved(env)
    ensures var r, r' := Step(m, f, env), Step(m.(resp := resp, shoulderBox := box), f.(shoulders := shoulders), env);
      r'.1.heart == r.1.heart && r'.0.rgb == r.0.rgb
  {
  }

  /** The respiration pipeline does not look at the face or at the colour
      buffers. */
  lemma RespirationIgnoresHeart(m: State, f: Frame, env: Collaborators,
                                rgb: Channels, face: Option<FaceBox>, meanColour: Rect -> Rgb)
    requires Valid(m) && Valid(m.(rgb := rgb)) && WellBehaved(env)
    ensures var r, r' := Step(m, f, env), Step(m.(rgb := rgb), f.(face := face, meanColour := meanColour), env);
      r'.1.respiration == r.1.respiration && r'.0.resp == r.0.resp && r'.0.shoulderBox == r.0.shoulderBox
  {
  }

  /** The state after a sequence of frames. */
  function RunState(m: State, frames: seq<Frame>): (n: State)
    requires Valid(m)
    ensures Valid(n) && n.fps == m.fps
    decreases |frames|
  {
    if |frames| == 0 then m else RunState(Advance(m, frames[0]), frames[1..])
  }

  /** The reports produced along a sequence of frames, one per frame. */
  function RunOutputs(m: State, frames: seq<Frame>, env: Collaborators): (outs: seq<FrameOutput>)
    requires Valid(m) && WellBehaved(env)
    ensures |outs| == |frames|
    decreases |frames|
  {
    if |frames| == 0 then [] else [Outputs(m, frames[0], env)] + RunOutputs(Advance(m, frames[0]), frames[1..], env)
  }

  /** Frames that contribute a colour sample. */
  function ColourSamples(frames: seq<Frame>): nat
  {
    if |frames| == 0 then 0 else (if ForeheadTaken(frames[0]) then 1 else 0) + ColourSamples(frames[1..])
  }

  /** Frames that contribute a shoulder sample. */
  function ShoulderSamples(frames: seq<Frame>): nat
  {
    if |frames| == 0 then 0 else (if frames[0].shoulders.Some? then 1 else 0) + ShoulderSamples(frames[1..])
  }

  /** Frames on which the colour window is processed. */
  function HeartWindows(m: State, frames: seq<Frame>): nat
    requires Valid(m)
    decreases |frames|
  {
    if |frames| == 0 then 0
    else (if HeartDue(m, frames[0]) then 1 else 0) + HeartWindows(Advance(m, frames[0]), frames[1..])
  }

  /** Frames on which the respiration window is processed. */
  function RespirationWindows(m: State, frames: seq<Frame>): nat
    requires Valid(m)
    decreases |frames|
  {
    if |frames| == 0 then 0
    else (if RespirationDue(m, frames[0]) then 1 else 0) + RespirationWindows(Advance(m, frames[0]), frames[1..])
  }

  function CountHeartReports(outs: seq<FrameOutput>): nat
  {
    if |outs| == 0 then 0 else (if outs[0].heart.Some? then 1 else 0) + CountHeartReports(outs[1..])
  }

  function CountRespirationReports(outs: seq<FrameOutput>): nat
  {
    if |outs| == 0 then 0 else (if outs[0].respiration.Some? then 1 else 0) + CountRespirationReports(outs[1..])
  }

  /** A report is produced exactly on the frames that process a window. */
  lemma {:induction false} ReportsMarkWindows(m: State, frames: seq<Frame>, env: Collaborators)
    requires Valid(m) && WellBehaved(env)
    ensures CountHeartReports(RunOutputs(m, frames, env)) == HeartWindows(m, frames)
    ensures CountRespirationReports(RunOutputs(m, frames, env)) == RespirationWindows(m, frames)
    decreases |frames|
  {
    if |frames| > 0 {
      var outs := RunOutputs(m, frames, env);
      assert outs[1..] == RunOutputs(Advance(m, frames[0]), frames[1..], env);
      ReportsMarkWindows(Advance(m, frames[0]), frames[1..], env);
    }
  }

  /** Windows do not overlap and nothing is dropped: every colour sample
      taken is either in exactly one processed window of `ceil(fps * 10)`
      samples or still waiting in the buffer. */
  lemma {:induction false} EveryColourSampleInOneWindow(m: State, frames: seq<Frame>)
    requires Valid(m) && 0.0 < m.fps
    ensures |m.rgb.g| + ColourSamples(frames)
         == HeartWindows(m, frames) * Ceil(m.fps * WindowSeconds) + |RunState(m, frames).rgb.g|
    decreases |frames|
  {
    if |frames| > 0 {
      var next := Advance(m, frames[0]);
      ProcessedWindowsHaveExactLength(m, frames[0]);
      EveryColourSampleInOneWindow(next, frames[1..]);
      Account(|m.rgb.g|, if ForeheadTaken(frames[0]) then 1 else 0, ColourSamples(frames[1..]),
              HeartWindows(next, frames[1..]), Ceil(m.fps * WindowSeconds), |next.rgb.g|,
              |RunState(next, frames[1..]).rgb.g|, HeartDue(m, frames[0]));
    }
  }

  /** The same for shoulder samples and respiration windows. */
  lemma {:induction false} EveryShoulderSampleInOneWindow(m: State, frames: seq<Frame>)
    requires Valid(m) && 0.0 < m.fps
    ensures |m.resp| + ShoulderSamples(frames)
         == RespirationWindows(m, frames) * Ceil(m.fps * WindowSeconds) + |RunState(m, frames).resp|
    decreases |frames|
  {
    if |frames| > 0 {
      var next := Advance(m, frames[0]);
      ProcessedWindowsHaveExactLength(m, frames[0]);
      EveryShoulderSampleInOneWindow(next, frames[1..]);
      Account(|m.resp|, if frames[0].shoulders.Some? then 1 else 0, ShoulderSamples(frames[1..]),
              RespirationWindows(next, frames[1..]), Ceil(m.fps * WindowSeconds), |next.resp|,
              |RunState(next, frames[1..]).resp|, RespirationDue(m, frames[0]));
    }
  }

  /** The colour samples a run of frames takes, in frame order. */
  function TakenColours(frames: seq<Frame>): (c: Channels)
    ensures c.Aligned()
  {
    if |frames| == 0 then NoChannels else FrameColours(frames[0]).Append(TakenColours(frames[1..]))
  }

  /** The shoulder rows a run of frames takes, in frame order. */
  function TakenRows(frames: seq<Frame>): seq<int>
  {
    if |frames| == 0 then [] else FrameRows(frames[0]) + TakenRows(frames[1..])
  }

  /** The colour windows a run hands to the heart-rate pipeline, one after the other. */
  function ProcessedColours(m: State, frames: seq<Frame>): (c: Channels)
    requires Valid(m)
    ensures c.Aligned()
    decreases |frames|
  {
    if |frames| == 0 then NoChannels
    else
      (if HeartDue(m, frames[0]) then m.rgb.Append(FrameColours(frames[0])) else NoChannels)
        .Append(ProcessedColours(Advance(m, frames[0]), frames[1..]))
  }

  /** The shoulder windows a run hands to the respiration pipeline, one after the other. */
  function ProcessedRows(m: State, frames: seq<Frame>): seq<int>
    requires Valid(m)
    decreases |frames|
  {
    if |frames| == 0 then []
    else
      (if RespirationDue(m, frames[0]) then m.resp + FrameRows(frames[0]) else [])
        + ProcessedRows(Advance(m, frames[0]), frames[1..])
  }

  /** Every colour sample reaches the pipeline once, in order: the buffered
      colours followed by those taken during a run are the windows analysed,
      one after the other, followed by what is still buffered. */
  lemma {:induction false} ColoursConserved(m: State, frames: seq<Frame>)
    requires Valid(m)
    ensures m.rgb.Append(TakenColours(frames)) == ProcessedColours(m, frames).Append(RunState(m, frames).rgb)
    decreases |frames|
  {
    if |frames| == 0 {
      assert m.rgb.Append(NoChannels) == m.rgb;
      assert NoChannels.Append(m.rgb) == m.rgb;
    } else {
      var f, rest := frames[0], frames[1..];
      var next := Advance(m, f);
      var window := m.rgb.Append(FrameColours(f));
      ColoursConserved(next, rest);
      assert RunState(m, frames) == RunState(next, rest);
      AppendAssociative(m.rgb, FrameColours(f), TakenColours(rest));
      if HeartDue(m, f) {
        assert NoChannels.Append(TakenColours(rest)) == TakenColours(rest);
        AppendAssociative(window, ProcessedColours(next, rest), RunState(next, rest).rgb);
      } else {
        assert NoChannels.Append(ProcessedColours(next, rest)) == ProcessedColours(next, rest);
      }
    }
  }

  lemma AppendAssociative(a: Channels, b: Channels, c: Channels)
    ensures a.Append(b).Append(c) == a.Append(b.Append(c))
  {
    assert (a.r + b.r) + c.r == a.r + (b.r + c.r);
    assert (a.g + b.g) + c.g == a.g + (b.g + c.g);
    assert (a.b + b.b) + c.b == a.b + (b.b + c.b);
  }

  /** The same for shoulder rows and respiration windows. */
  lemma {:induction false} RowsConserved(m: State, frames: seq<Frame>)
    requires Valid(m)
    ensures m.resp + TakenRows(frames) == ProcessedRows(m, frames) + RunState(m, frames).resp
    decreases |frames|
  {
    if |frames| == 0 {
      assert m.resp + [] == m.resp;
    } else {
      var f, rest := frames[0], frames[1..];
      var next := Advance(m, f);
      RowsConserved(next, rest);
      assert RunState(m, frames) == RunState(next, rest);
      SplitStep(m.resp, FrameRows(f), TakenRows(rest), ProcessedRows(next, rest), RunState(next, rest).resp,
                next.resp, RespirationDue(m, f));
    }
  }

  /** One step of the conservation: buffer `a` and sample `t` either form a
      window, leaving the buffer `n` empty, or become the buffer `n`. */
  lemma SplitStep(a: seq<int>, t: seq<int>, taken: seq<int>, later: seq<int>, left: seq<int>,
                  n: seq<int>, completes: bool)
    requires completes ==> n == []
    requires !completes ==> n == a + t
    requires n + taken == later + left
    ensures a + (t + taken) == ((if completes then a + t else []) + later) + left
  {
    if completes {
      assert [] + taken == taken;
      assert a + (t + taken) == ((a + t) + later) + left;
    } else {
      assert [] + later == later;
      assert a + (t + taken) == (a + t) + taken;
    }
  }

  /** One step of the bookkeeping: `a` buffered, `t` taken now, `c` taken
      later; the step either completes a window of `w` or leaves `n` buffered. */
  lemma Account(a: int, t: int, c: int, k: int, w: int, n: int, last: int, completes: bool)
    requires completes ==> a + t == w && n == 0
    requires !completes ==> n == a + t
    requires n + c == k * w + last
    ensures a + t + c == (if completes then k + 1 else k) * w + last
  {
    if completes {
      assert (k + 1) * w == k * w + w;
    }
  }
}
