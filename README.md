# Video stabilization: the per-frame bookkeeping of `mainProcess`

`mainProcess` (in `src/process.cpp`) runs one stabilization pipeline per input
stream. Most of it is OpenCV/CUDA calls. Around those calls sits a small
sequential core, which this project models and proves properties of:

- **Capture source classification.** The input string is opened as a numeric
  camera index exactly when a base-10 `strtol` consumes every character before
  the terminating NUL. Anything else is opened as a path or URI
  (`capture_source.dfy`, module `CaptureSource`).
- **Trajectory history.** A deque of motion deltas is pre-filled with
  `HISTORY_LIMIT` zero deltas. Each frame it drops its oldest entry when full
  and appends the new delta (`trajectory.dfy`, module `Trajectory`).
- **Residual and clamp.** The frame's delta minus the moving average of the
  history is the residual. Its x and y are clamped to `±MOTION_THRESH`, and
  its rotation z is left alone (`Trajectory`, and `Stabilizer.Filter`).
- **Previous points.** The warm-up loop detects on the first frame until some
  keypoint is found. Each frame's re-detection keeps the stale points when the
  detector returns nothing (`pipeline.dfy`, class `Pipeline.Stabilizer`).
- **Transforms.** The crop transform is computed once from the first frame's
  centre. Each frame's compensating matrix carries the clamped residual as its
  translation column.

The per-frame state of `mainProcess` is the class `Stabilizer`. Its fields
are `history` (`vPointsInTime`), `prevFrame`, `prevPointBuff`, `prevPoints`
and `cropper` (`cropperMat`). Its methods change them as the source does.
`Ready()` is the state the main loop relies on: a full history, non-empty
previous points on host and device, and the crop computed. `MainProcess`
establishes it after warm-up, and every iteration keeps it. So the tracker
call at line 109 never receives an empty point buffer.

The OpenCV calls are not modelled. Their results are inputs:

- the detector's keypoints;
- the motion delta that tracking, `estimateAffine2D` and `atan2` give for a frame;
- the moving average of the history (a function parameter standing for `fMovingAverage`);
- the cosine and sine of the rotation (a function parameter).

Floats are modelled as reals.

## Model

| member | source | states |
|---|---|---|
| `CaptureSource.StrtolEnd` | src/process.cpp:32 | the end pointer `strtol` leaves lies within the string; it is either 0, the start of the string, or just after the last digit of the run it read, on a non-digit or at the end |
| `CaptureSource.StrtolValue` | src/process.cpp:32 | when `strtol` reads no digit, the value is 0; its value on a numeral is stated by `ClassifyValue` |
| `CaptureSource.Classify` | src/process.cpp:32-36 | a path is always the non-empty C string of the input, and an input whose C string is empty opens device 0; the exact split between device and path is `ClassifyDevice`, the device index `ClassifyValue` |
| `CaptureSource.StrLen` | src/process.cpp:33 | `strlen` is the position of the first NUL (or the whole length), and no earlier character is NUL |
| `CaptureSource.ClassifyDevice` | src/process.cpp:32-36 | the input opens a device iff its C string is empty or is blanks, an optional sign and one or more digits; otherwise it opens the path named by that C string |
| `CaptureSource.ClassifyValue` | src/process.cpp:32-34 | the empty string opens device 0; a numeral opens the device whose index is its signed decimal value |
| `CaptureSource.NumeralScan` | src/process.cpp:32-33 | on a numeral, `strtol` skips exactly the blanks and the sign and stops at `strlen`, so the test at line 33 passes |
| `CaptureSource.ClassifyEmptyExample` | src/process.cpp:32-34 | `""` opens device 0 |
| `CaptureSource.ClassifySignedExample` | src/process.cpp:32-34 | `" \t+7"` opens device 7: leading blanks and a plus sign are accepted |
| `CaptureSource.ClassifyNegativeExample` | src/process.cpp:32-34 | `"-3"` opens device -3 |
| `CaptureSource.ClassifyMultiDigitExample` | src/process.cpp:32-34 | `"123"` opens device 123: the digits are read most significant first |
| `CaptureSource.ClassifyNulExample` | src/process.cpp:32-34 | characters after an embedded NUL do not take part in the test |
| `CaptureSource.ClassifyPathExamples` | src/process.cpp:32-36 | `"12abc"`, `"-"`, `"  "` and `"12 "` open as paths |
| `Trajectory.InitialHistory` | src/process.cpp:11 | the deque starts with exactly `HISTORY_LIMIT` zero deltas |
| `Trajectory.Pushed` | src/process.cpp:117-119 | one update grows the history by one below the limit, keeps its size at or above it, and always ends it with the new delta; `PushedFull` and `PushedGrows` give the whole new history |
| `Trajectory.PushAll` | src/process.cpp:117-119 | pushes never take a history that is no longer than the limit beyond it, and after any push the history ends with the last delta pushed; `PushAllWindow`, `PushAllRecent` and `PushAllSize` give the whole history |
| `Trajectory.TrailAt` | src/process.cpp:117-119 | entry `k` of the sequence of histories the loop passes through is the history after the first `k + 1` pushes |
| `Trajectory.PushedFull` | src/process.cpp:117-119 | a push onto a full history keeps its size, puts the new delta last, and shifts every other entry one place towards the front |
| `Trajectory.PushedGrows` | src/process.cpp:117-119 | below the limit a push only appends |
| `Trajectory.PushAllWindow` | src/process.cpp:117-119 | starting full, the history after any pushes is the last `HISTORY_LIMIT` entries of the old history followed by everything pushed |
| `Trajectory.PushAllRecent` | src/process.cpp:117-119 | after at least `HISTORY_LIMIT` pushes the history is exactly the most recent `HISTORY_LIMIT` deltas, in push order |
| `Trajectory.PushAllSize` | src/process.cpp:117-119 | from any size up to the limit, the size grows by one per push and never exceeds the limit |
| `Trajectory.Sign` | src/process.cpp:124 | `signnum_typical` is positive exactly for a positive argument and negative exactly for a negative one; it is ±1 for any non-zero argument and 0 for 0 |
| `Trajectory.ClampAxis` | src/process.cpp:123-126 | with a non-negative threshold the result lies within it; an in-range value is kept; an out-of-range value becomes the threshold with the value's sign |
| `Trajectory.Clamp` | src/process.cpp:123-126 | the rotation z is never changed |
| `Trajectory.ClampBounded` | src/process.cpp:123-126 | with `MOTION_THRESH >= 0`, both clamped translations lie within `±MOTION_THRESH` |
| `Trajectory.ClampKeepsInRange` | src/process.cpp:123-126 | a delta whose x and y are within the threshold is unchanged |
| `Trajectory.ClampIdempotent` | src/process.cpp:123-126 | clamping twice gives the same delta as clamping once |
| `Pipeline.ToPoints` | src/process.cpp:74 | the point buffer has one point per keypoint, the keypoint's location, in order |
| `Pipeline.FirstDetection` | src/process.cpp:67-77 | the index of the first try whose detection is non-empty; every earlier try found nothing |
| `Pipeline.CropOf` | src/process.cpp:96 | the crop pivots on the frame centre by integer halving (`2*cx <= cols < 2*cx + 2`), with angle 0 and scale `SCALE_FACTOR` |
| `Pipeline.CompensatingMatrix` | src/process.cpp:128-129 | the translation column is exactly the residual's x and y, and the left block is a rotation block built from the cosine and sine |
| `Pipeline.LatestPoints` | src/process.cpp:188-193 | the buffer after a run of frames is either the starting buffer or the points of one of those frames' non-empty detections; `LatestPointsIsLastDetection` says which |
| `Pipeline.StabilizingMatrix` | src/process.cpp:122-129 | the compensating matrix of a frame's motion against a history (the main loop passes the one that already ends with that motion): its translation column is the residual against the moving average of that history, each of x and y clamped to `MOTION_THRESH` |
| `Pipeline.OutputsAt` | src/process.cpp:100-194 | output `k` of the main loop is frame `k`'s compensating matrix against `trail[k]`, and every output carries the same crop |
| `Pipeline.OutputsBounded` | src/process.cpp:122-129 | with `MOTION_THRESH >= 0`, every output's translation lies within `±MOTION_THRESH` |
| `Pipeline.StabilizingBounded` | src/process.cpp:122-129 | with `MOTION_THRESH >= 0`, the translation of the compensating matrix built from any history and delta lies within `±MOTION_THRESH` |
| `Pipeline.LatestPointsIsLastDetection` | src/process.cpp:188-193 | after a run of frames the points are those of the last frame whose detection was non-empty, or the starting points if none was |
| `Pipeline.LatestPointsNonEmpty` | src/process.cpp:188-193 | re-detection never empties a non-empty point buffer |
| `Pipeline.Stabilizer.constructor` | src/process.cpp:8-18 | the history holds `HISTORY_LIMIT` zero deltas; the frame, point buffers and crop are empty |
| `Pipeline.Stabilizer.WarmUp` | src/process.cpp:67-77 | the loop ends with points iff some try detected something; the points are those of the first such try, on host and device; every try uses the first frame; a buffer that already holds points is left alone |
| `Pipeline.Stabilizer.InitCropper` | src/process.cpp:96 | the crop is computed from the first frame's centre and `SCALE_FACTOR` |
| `Pipeline.Stabilizer.PushHistory` | src/process.cpp:117-119 | the new history is the old one with its front popped when full, then the delta appended |
| `Pipeline.Stabilizer.Filter` | src/process.cpp:122-126 | the result is the clamped residual of the delta against the moving average of the current history; its x and y lie within the threshold; its z is the unclamped residual rotation |
| `Pipeline.Stabilizer.Redetect` | src/process.cpp:188-193 | an empty detection leaves both point buffers unchanged; otherwise both become one point per keypoint |
| `Pipeline.Stabilizer.Step` | src/process.cpp:100-193 | keeps `Ready()`, so the tracker sees non-empty points; the delta is pushed before the average is taken, so the history ends with it; the matrix holds the clamped residual as translation within the threshold; the crop is the one computed at line 96; the frame becomes the previous frame; the points follow `Redetect` |
| `Pipeline.Stabilizer.Run` | src/process.cpp:97-194 | one output per frame read, and the outputs are exactly `Outputs` of the trail of histories the frames' motions pass through: output `k` is frame `k`'s compensating matrix against the history after the first `k + 1` pushes, with the crop of line 96 (`OutputsAt`, `TrailAt`); the history equals all the frame motions pushed in order; the points are those of the latest useful detection; the last frame becomes the previous frame |
| `Pipeline.MainProcess` | src/process.cpp:59-97 | the outcome is `NoFrame` exactly when no first frame is read, and `NoKeypoints` exactly when a first frame is read but no detection answer is non-empty (the source spins forever there); otherwise the main loop runs from the initial zero history, output `k` is frame `k`'s clamped residual against that history after `k + 1` pushes, every frame gets the crop of the first frame, and the translations are bounded |

## Left out

- OpenCV and CUDA calls are foreign code. This covers `setDevice`, FAST detection, the pyramidal LK tracker, `estimateAffine2D`, `cvtColor`, `upload`/`download`, `warpAffine` and the internals of `getRotationMatrix2D`. Their results are inputs, and the crop is recorded by the arguments passed to `getRotationMatrix2D`.
- The enhancement stage (lines 80-88, 131-154) is bilateral filtering, a linear filter, `split`/`merge`, `equalizeHist` and colour conversion. All of it is foreign and changes pixels only. The failure to build the filter at lines 82-87 is not modelled.
- Opening the capture (lines 37-41) and building the detector and tracker (lines 43-57) are foreign. `MainProcess` starts once the capture is open and the detector and tracker are built; their construction failures at lines 45-57 are not modelled. A first frame that cannot be read is modelled as `firstRead == None`.
- `atan2` at line 114 and `cos`/`sin` at line 128 are floating-point trigonometry. The rotation of a delta is an input, and the cosine and sine are a function parameter.
- `fMovingAverage` is not part of this model. It is a function parameter, and the model proves nothing about the window it averages.
- `signnum_typical` is not part of this model. It is taken to be the usual -1/0/+1 sign.
- `fKeyPoint2StdVector` is not part of this model. It is taken to return the keypoints' locations in order.
- Float and `Point3f` arithmetic is modelled over the reals, so rounding is not captured.
- The degenerate fit at lines 113-114 (`H.at` on a possibly empty matrix) is undefined behaviour, not a contract.
- `abs` at lines 123 and 125 is taken to be the floating-point overload that `cv::Point3f`'s `float` members select. The C `int abs(int)` would truncate the argument first.
- The input C string is modelled as a sequence of Dafny characters rather than bytes. Only the ASCII characters (white space, sign, digits, NUL) decide the classification, so the result is the same.
- `strtol` overflow and the narrowing of `long` to `int` at line 32 are not modelled. Device indices are unbounded integers.
- The shared `loopFlag` at line 97 is cross-thread state. `Run` instead processes every frame until reading fails.
- The `#ifdef DEBUG` window and video writer, the display update at line 182, and the cleanup at lines 196-205 are plumbing with no effect on the modelled state.
- Pipeline.Stabilizer.WarmUp: the source retries without bound, and with a deterministic detector it spins forever when the first try finds nothing. The model takes the detector's answers as a finite sequence, and running out of answers stands for that hang.
- Pipeline.MainProcess: `NoKeypoints` is not a termination of the source. When no detection is ever non-empty the warm-up loop at lines 67-77 never exits, and the model returns this outcome in place of that hang.
- Trajectory.ClampIdempotent: stated for `MOTION_THRESH >= 0`. With a negative threshold the clamp flips sign on every application.
- The tracker's output alignment (one tracked point and one status per input point) belongs to the foreign tracker and is not modelled.
