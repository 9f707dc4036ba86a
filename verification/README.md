# Heart-rate and respiration monitor: the numeric core in Dafny

The monitor watches a webcam feed and keeps two rolling buffers.

- **Colour buffer.** Each frame with a usable face detection adds the mean colour of a forehead rectangle.
- **Shoulder buffer.** Each frame with a usable pose detection adds the pixel row of the shoulders.

When a buffer holds ten seconds of frames (`len >= fps * 10`), it is processed and emptied:

1. The colour traces go through the POS projection (Plane-Orthogonal-to-Skin, `cpu_POS`). The shoulder rows are used as they are.
2. A Butterworth bandpass is applied, after the cutoff validation of `bandpass_filter_signal`.
3. The signal is standardised (`(x - mean) / (std + 1e-6)`).
4. It is smoothed by a moving average of `int(fps / 2)` samples.
5. Peaks are searched at a minimum distance of `fps / 3` (heart) or `fps / 0.5` (respiration).
6. The rate is `60 / mean(diff(peaks) / fps)`, or `0` when there is no interval.

The model covers this numeric glue in exact arithmetic:

- **`Numerics`**: sums, means, the population standard deviation, and Python's `int()` as truncation.
- **`Smoothing`**: `moving_average_filter` as a valid-mode convolution with a box kernel.
- **`Bandpass`**: the cutoff policy, with the filter library as a parameter.
- **`Pos`**: `cpu_POS`.
- **`InitialRoi`**: the box arithmetic of `get_initial_roi`.
- **`FrameRoi`**: the forehead rectangle and the shoulder box of `update_frame`.
- **`Rate`**: peaks to rate.
- **`Pipeline`**: one full processing pass, shared by both pipelines.
- **`Monitor`**: the per-frame state machine (`__init__` and `update_frame`).

Library routines the code calls are parameters of the model, together with the few facts the model assumes about them:

- the square root, assumed non-negative;
- `butter` plus `filtfilt`, which keep the signal length or raise;
- `find_peaks`, whose indices are increasing and at least the requested distance apart.

## Model

| member | source | states |
|---|---|---|
| Numerics.Trunc | main.py:289 | `int()` of a real rounds toward zero: the result is within one of the input, on the zero side |
| Smoothing.MovingAverage | utils/heart_rate.py:94-97 | a non-positive window or a signal shorter than the window comes back unchanged; otherwise the output has `len - w + 1` samples and sample `i` is the mean of `signal[i..i+w]`; a non-empty signal is never emptied |
| Smoothing.BoxConvolutionIsWindowMean | utils/heart_rate.py:97 | valid-mode convolution with `ones(w)/w` gives, at every position, the mean of the window starting there |
| Smoothing.SmoothingKeepsConstant | utils/heart_rate.py:94-97 | a constant signal smooths to the same constant at every remaining sample |
| Bandpass.ChooseBand | utils/heart_rate.py:58-73 | the filter design only ever sees `0 < low < high < 1`; the band is rejected exactly when the normalised cutoffs are inverted, or out of range with clamping to [0.01, 0.99] collapsing them; in-range cutoffs are used unchanged; out-of-range ones are each clipped into [0.01, 0.99] (`np.clip`) |
| Bandpass.ChooseBandRejectsInvertedCutoffs | utils/heart_rate.py:58-66 | for a positive sample rate the first rejection happens exactly when `lowcut >= highcut` |
| Bandpass.BandpassFilter | utils/heart_rate.py:44-80 | the output has the input's length; a rejected band returns the input; for an accepted band the output is the library's output on exactly the band `ChooseBand` picked, or the input when the library raises |
| Bandpass.RequestedBandIsUsed | utils/heart_rate.py:58-77 | cutoffs with `0 < lowcut < highcut < fs/2` reach the library normalised and unclamped, and its output is returned |
| Pos.ColumnNorm | utils/heart_rate.py:28 | the per-frame divisor is at least `1e-6`, so normalisation never divides by zero |
| Pos.Project | utils/heart_rate.py:34-40 | one sample per frame, `H[t] = (alpha - beta) * R[t] + G[t] - B[t]` (`PulseSample`) on the normalised channels |
| Pos.PosProjection | utils/heart_rate.py:21-42 | one pulse sample per frame; each is the projection of that frame's normalised colour with weights `alpha`, `beta` taken once over the whole window |
| Pos.SteadyColourGivesFlatPulse | utils/heart_rate.py:28-40 | a window in which every frame has the same colour yields a flat pulse trace |
| Numerics.StdReverse | utils/heart_rate.py:31-32 | the mean and the standard deviation of a window do not depend on the order of its samples |
| Pos.WeightsReverse | utils/heart_rate.py:31-32 | the weights `alpha` and `beta` do not change when the frames are reversed |
| Pos.PosCommutesWithReversal | utils/heart_rate.py:21-42 | the weights are shared by the whole window and blind to frame order: reversing the frames reverses the pulse trace |
| InitialRoi.GetInitialRoi | utils/heart_rate.py:131-160 | no pose gives exactly the no-pose error; a returned box has pixels, lies in the frame and spans at most `2*x_size` by `2*y_size`; a box is returned exactly when the shifted nominal box overlaps the frame |
| InitialRoi.InitialRoiIsIntersection | utils/heart_rate.py:147-154 | a returned box is the intersection of the nominal box around the shifted centre with the frame, column by column and row by row |
| InitialRoi.GetDefaultInitialRoi | utils/heart_rate.py:100-158 | with the default arguments a returned box is at most 200 x 60, spans the 60 rows above the shoulder centre and 100 columns either side of it, cut by the frame |
| FrameRoi.ForeheadRect | main.py:210-218 | the clamped forehead rectangle ends inside the frame and is never larger than the face width by 40% of its height |
| FrameRoi.ForeheadRectOfFaceInFrame | main.py:210-218 | for a face box inside the frame the rectangle is the top `int(0.4 * height)` rows of the face box, with its origin unchanged |
| FrameRoi.ForeheadSampledIffPositive | main.py:220-224 | the sliced region holds exactly `width * height * 3` values, so the size test accepts exactly the rectangles with positive extents |
| FrameRoi.ShoulderBox | main.py:252-270 | the respiration box lies in the frame; it covers both shoulders when they are in the frame; away from the edges it is 20 pixels high and centred on the shoulder row |
| Rate.IntervalsTelescope | main.py:293 | the peak intervals in seconds add up to the time from the first peak to the last |
| Rate.SpanAtLeast | main.py:292 | peaks at least `d` apart span at least `(k - 1) * d` samples over `k` peaks |
| Rate.RatePerMinute | main.py:292-294 | the rate is 0 exactly when fewer than two peaks were found; otherwise it equals `60 * fps * (k - 1) / (last peak - first peak)`; it is never negative for a positive frame rate |
| Rate.RateCeiling | main.py:292-294 | peaks at least `d` samples apart give at most `60 * fps / d` per minute |
| Pipeline.Standardise | main.py:288 | standardisation keeps the length and centres the signal: its samples sum to zero |
| Pipeline.SpecCeiling | main.py:292 | the peak distance `fps / 3` caps the heart rate at 180 per minute and `fps / 0.5` caps respiration at 30 |
| Pipeline.Analyse | main.py:286-302 | the `--` placeholder appears exactly for an empty window; otherwise the waveform is the window bandpass-filtered, standardised and smoothed, in that order, and trimmed only by the smoothing edges; the rate is the rate formula on the waveform's peaks, 0 exactly when fewer than two peaks were found; for a positive frame rate it lies between 0 and `60 * divisor` |
| Monitor.EffectiveFps | main.py:45-48 | a reported rate of 0 becomes 30 and any other rate is kept, so the rate in use is never 0 |
| Monitor.Init | main.py:45-70 | construction fails exactly when the effective rate truncates to 0 (the timer's `1000 // int(fps)` raises), i.e. for a non-zero rate strictly between -1 and 1; otherwise the monitor starts with the effective rate, empty buffers and no shoulder box, in a valid state |
| Monitor.SampleForehead | main.py:220-227 | the forehead region's mean colour is appended to all three traces exactly when a forehead region with pixels was found; otherwise the traces are unchanged |
| Monitor.SampleShoulders | main.py:236-270 | the shoulder row is appended and the box follows the pose exactly when a pose was found; otherwise buffer and box are unchanged |
| Monitor.Advance | main.py:220-328 | after a frame the state stays valid; a processed buffer is empty; any other buffer is the old buffer followed by this frame's sample; the shoulder box follows the latest pose and is kept when none is found |
| Monitor.Outputs | main.py:277-328 | a pipeline reports exactly on the frame its buffer reaches a full window, and the report is the analysis of the buffered samples followed by this frame's sample (the POS trace of the colours for the heart, the shoulder rows for respiration); for a positive rate the report is a rate between 0 and 180 (heart) or 0 and 30 (respiration) |
| Monitor.Step | main.py:180-328 | one call of `update_frame`: the state stays valid; each window is processed exactly when its buffer, with this frame's sample, reaches `fps * 10`, and its report analyses exactly that buffer and sample; processed buffers are emptied and others gain exactly this frame's sample; the shoulder box follows the latest pose; rates stay within the pipeline ceilings |
| Monitor.ProcessedWindowsHaveExactLength | main.py:279-307 | for a positive rate a processed window holds exactly `ceil(fps * 10)` samples, and the frame that completes it is one that added a sample |
| Monitor.HeartIgnoresRespiration | main.py:204-304 | the heart-rate report and colour buffers do not depend on the pose, the shoulder buffer or the shoulder box |
| Monitor.RespirationIgnoresHeart | main.py:233-328 | the respiration report, shoulder buffer and shoulder box do not depend on the face, the colours or the colour buffers |
| Monitor.RunState | main.py:180-328 | any sequence of frames keeps the state valid and the frame rate unchanged |
| Monitor.ReportsMarkWindows | main.py:279-328 | along any run the number of reports of each pipeline equals the number of frames that processed its window |
| Monitor.EveryColourSampleInOneWindow | main.py:225-304 | no colour sample is lost or counted twice: the samples taken equal `ceil(fps * 10)` times the windows processed plus what is still buffered |
| Monitor.EveryShoulderSampleInOneWindow | main.py:248-328 | the same accounting for shoulder samples and respiration windows |
| Monitor.ColoursConserved | main.py:225-304 | every colour sample reaches the heart-rate pipeline once and in order: the buffered colours followed by all colours taken during a run are the analysed windows, one after another, followed by what is still buffered |
| Monitor.RowsConserved | main.py:248-328 | the same for shoulder rows and the respiration windows |

## Left out

- Camera capture, the Qt GUI, drawing the rectangles and the plots: presentation and I/O only.
- MediaPipe face and pose inference: detections arrive as optional integer pixel boxes and shoulder coordinates.
- The conversion of normalised landmarks to pixels (`int(coord * w)`) is left out: pixel integers are inputs.
- The mean colour of a region, `np.mean(roi[:, :, c])`, is a parameter of each frame. The colour-channel order, R from channel 2 and B from channel 0, is part of that parameter.
- The Butterworth design and `filtfilt`: a parameter that either returns a same-length signal or raises (`ValueError`). The model takes length preservation as given.
- `find_peaks` is a parameter. The model takes as given that its indices increase and are spaced by at least the requested distance. It raises `ValueError` for a distance below 1 (a frame rate below 3); that error path is not modelled.
- Floating point: all arithmetic is exact real arithmetic. `int(h * 0.4)` and `int(d * 0.1)` are modelled as truncations of exact products, which agree with the double results for integer inputs. The square root is a parameter known only to be non-negative.
- Pos.PosProjection: illumination invariance, meaning that scaling a frame's colour leaves its normalised colour unchanged, holds only approximately because of the `1e-6` added to the norm, so it is not stated.
- Numerics.Trunc: the `int()` of a NaN or infinity raises in Python; reals have neither.
- The timer interval `1000 // int(fps)` paces the GUI. The model keeps only its division by zero, in `Monitor.Init`. For a rate of -1 or below the interval is negative, and what Qt then does is not modelled.
- `resp_roi_center_y_history` and `last_pose_landmarks` are initialised but never used.
- `get_initial_roi` is modelled from its box arithmetic on; image conversion and detection are the parameter `centre`.
- `download_model.py` and `check_gpu.py` are setup scripts and not part of this model.
- For fewer than two peaks the code shows a numeric rate of 0, not an "undefined" rate. The model follows the code (`Rate.RatePerMinute` returns 0). The `--` placeholder appears only for an empty filtered window, which needs a frame rate of at most 0.
- The code falls back to 30 fps only when the camera reports exactly 0, not for other invalid rates. The model follows the code (`Monitor.EffectiveFps`). For a negative rate the buffers are processed on every frame.
- The forehead origin is clamped to the frame without shrinking the width and height, so a face box that starts left of or above the frame yields a rectangle shifted into the frame. The model keeps this as written (`FrameRoi.ForeheadRect`).
