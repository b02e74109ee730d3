/**
  The per-frame bookkeeping of `mainProcess`: the warm-up search for the first
  keypoints, the fixed crop transform, and one iteration of the main loop
  (history update, residual and clamp, compensating matrix, re-detection).

  The OpenCV calls are not modelled. What they produce enters as inputs: the
  detector's keypoints, the motion delta that tracking, `estimateAffine2D` and
  `atan2` yield for a frame, the moving average of the history, and the cosine
  and sine of an angle.
*/
module Pipeline {
  import opened Trajectory

  datatype Option<T> = None | Some(value: T)

  /** The compile-time constants HISTORY_LIMIT, SMOOTHING_RADIUS, MOTION_THRESH and SCALE_FACTOR. */
  datatype Config = Config(historyLimit: nat, smoothingRadius: nat, motionThresh: real, scaleFactor: real)

  /** A captured frame; `serial` stands for its pixels. */
  datatype Frame = Frame(cols: nat, rows: nat, serial: nat)

  datatype Point2 = Point2(x: real, y: real)

  /** A detected keypoint: its location and the detector's metadata. */
  datatype KeyPoint = KeyPoint(pt: Point2, size: real, response: real)

  /** A 2x3 affine matrix, row by row. */
  datatype Affine = Affine(m00: real, m01: real, m02: real, m10: real, m11: real, m12: real)

  /** The arguments of `getRotationMatrix2D`: pivot, angle and scale. */
  datatype CropSpec = CropSpec(centerX: nat, centerY: nat, angle: real, scale: real)

  /** What the main loop receives for one frame it reads. */
  datatype FrameInput = FrameInput(frame: Frame, motion: Delta, detected: seq<KeyPoint>)

  /** The two transforms applied to one frame: stabilization, then crop. */
  datatype FrameTransforms = FrameTransforms(stabilize: Affine, crop: CropSpec)

  /** `fKeyPoint2StdVector`: one point per keypoint, its location. */
  function ToPoints(kps: seq<KeyPoint>): (pts: seq<Point2>)
    ensures |pts| == |kps|
    ensures forall k :: 0 <= k < |kps| ==> pts[k] == kps[k].pt
  {
    seq(|kps|, k requires 0 <= k < |kps| => kps[k].pt)
  }

  /** Some answer of the detector holds at least one keypoint. */
  predicate SomeDetection(answers: seq<seq<KeyPoint>>) {
    exists k :: 0 <= k < |answers| && answers[k] != []
  }

  /** The index of the first non-empty answer. */
  function FirstDetection(answers: seq<seq<KeyPoint>>): (r: nat)
    requires SomeDetection(answers)
    ensures r < |answers| && answers[r] != []
    ensures forall k :: 0 <= k < r ==> answers[k] == []
  {
    if answers[0] != [] then 0 else 1 + FirstDetection(answers[1..])
  }

  /** Line 96: the crop pivots on the centre of `first` (integer halves), with angle 0. */
  function CropOf(first: Frame, scale: real): (c: CropSpec)
    ensures 2 * c.centerX <= first.cols < 2 * c.centerX + 2
    ensures 2 * c.centerY <= first.rows < 2 * c.centerY + 2
    ensures c.angle == 0.0 && c.scale == scale
  {
    CropSpec(first.cols / 2, first.rows / 2, 0.0, scale)
  }

  /** Line 128: the compensating matrix for delta `d`, given cos and sin of `d.z`. */
  function CompensatingMatrix(d: Delta, cosZ: real, sinZ: real): (m: Affine)
    ensures m.m02 == d.x && m.m12 == d.y
    ensures m.m00 == m.m11 == cosZ && m.m10 == -m.m01 == sinZ
  {
    Affine(cosZ, -sinZ, d.x, sinZ, cosZ, d.y)
  }

  /**
    Lines 122-129: the compensating matrix of a frame whose motion is `motion`,
    given the history that already ends with it: the residual against the
    moving average, clamped, gives the translation and the rotation.
  */
  function StabilizingMatrix(history: seq<Delta>, motion: Delta, config: Config,
                             average: (seq<Delta>, nat) -> Delta, trig: real -> (real, real)): (m: Affine)
    ensures var residual := Sub(motion, average(history, config.smoothingRadius));
      m.m02 == Clamp(residual, config.motionThresh).x && m.m12 == Clamp(residual, config.motionThresh).y
  {
    var d := Clamp(Sub(motion, average(history, config.smoothingRadius)), config.motionThresh);
    CompensatingMatrix(d, trig(d.z).0, trig(d.z).1)
  }

  /**
    The transforms of the frames `inputs`, frame `k` filtered against the
    history `trail[k]`, every frame cropped by `crop`.
  */
  function Outputs(trail: seq<seq<Delta>>, inputs: seq<FrameInput>, config: Config, crop: CropSpec,
                   average: (seq<Delta>, nat) -> Delta, trig: real -> (real, real)): (outs: seq<FrameTransforms>)
    requires |trail| == |inputs|
    ensures |outs| == |inputs|
  {
    if inputs == [] then []
    else
      var n := |inputs|;
      Outputs(trail[..n - 1], inputs[..n - 1], config, crop, average, trig)
        + [FrameTransforms(StabilizingMatrix(trail[n - 1], inputs[n - 1].motion, config, average, trig), crop)]
  }

  /** Output `k` is frame `k`'s compensating matrix against `trail[k]`, with the common crop. */
  lemma {:induction false} OutputsAt(trail: seq<seq<Delta>>, inputs: seq<FrameInput>, config: Config, crop: CropSpec,
                                     average: (seq<Delta>, nat) -> Delta, trig: real -> (real, real))
    requires |trail| == |inputs|
    ensures forall k :: 0 <= k < |inputs| ==>
      Outputs(trail, inputs, config, crop, average, trig)[k]
        == FrameTransforms(StabilizingMatrix(trail[k], inputs[k].motion, config, average, trig), crop)
  {
    if inputs != [] {
      var n := |inputs|;
      OutputsAt(trail[..n - 1], inputs[..n - 1], config, crop, average, trig);
    }
  }

  /** With a non-negative threshold every output's translation lies within it. */
  lemma OutputsBounded(trail: seq<seq<Delta>>, inputs: seq<FrameInput>, config: Config, crop: CropSpec,
                       average: (seq<Delta>, nat) -> Delta, trig: real -> (real, real))
    requires |trail| == |inputs| && config.motionThresh >= 0.0
    ensures forall k :: 0 <= k < |inputs| ==>
      Abs(Outputs(trail, inputs, config, crop, average, trig)[k].stabilize.m02) <= config.motionThresh &&
      Abs(Outputs(trail, inputs, config, crop, average, trig)[k].stabilize.m12) <= config.motionThresh
  {
    OutputsAt(trail, inputs, config, crop, average, trig);
    forall k | 0 <= k < |inputs| {
      StabilizingBounded(trail[k], inputs[k].motion, config, average, trig);
    }
  }

  /** One more frame appends its own transform to the outputs. */
  lemma OutputsStep(trail: seq<seq<Delta>>, h: seq<Delta>, inputs: seq<FrameInput>, i: nat, config: Config,
                    crop: CropSpec, average: (seq<Delta>, nat) -> Delta, trig: real -> (real, real))
    requires i < |inputs| && |trail| == i
    ensures Outputs(trail + [h], inputs[..i + 1], config, crop, average, trig)
      == Outputs(trail, inputs[..i], config, crop, average, trig)
         + [FrameTransforms(StabilizingMatrix(h, inputs[i].motion, config, average, trig), crop)]
  {
    assert (trail + [h])[..i] == trail;
    assert inputs[..i + 1][..i] == inputs[..i];
  }

  /** With a non-negative threshold the compensating translation lies within it. */
  lemma StabilizingBounded(history: seq<Delta>, motion: Delta, config: Config,
                           average: (seq<Delta>, nat) -> Delta, trig: real -> (real, real))
    requires config.motionThresh >= 0.0
    ensures Abs(StabilizingMatrix(history, motion, config, average, trig).m02) <= config.motionThresh
    ensures Abs(StabilizingMatrix(history, motion, config, average, trig).m12) <= config.motionThresh
  {
    ClampBounded(Sub(motion, average(history, config.smoothingRadius)), config.motionThresh);
  }

  /** The points the buffer holds after each of `inputs` ran its re-detection. */
  function LatestPoints(points: seq<Point2>, inputs: seq<FrameInput>): (r: seq<Point2>)
    ensures r == points || exists k :: 0 <= k < |inputs| && inputs[k].detected != [] && r == ToPoints(inputs[k].detected)
  {
    if inputs == [] then points
    else
      var front := inputs[..|inputs| - 1];
      var last := inputs[|inputs| - 1];
      assert forall k :: 0 <= k < |front| ==> front[k] == inputs[k];
      if last.detected == [] then LatestPoints(points, front)
      else ToPoints(last.detected)
  }

  /** The motion deltas of `inputs`, in order. */
  function Motions(inputs: seq<FrameInput>): (ds: seq<Delta>)
    ensures |ds| == |inputs|
    ensures forall k {:trigger ds[k]} :: 0 <= k < |inputs| ==> ds[k] == inputs[k].motion
  {
    seq(|inputs|, k requires 0 <= k < |inputs| => inputs[k].motion)
  }

  /** Pushing the motions of one more frame is one more push onto the history. */
  lemma HistoryStep(h: seq<Delta>, inputs: seq<FrameInput>, i: nat, limit: nat)
    requires limit >= 1 && i < |inputs|
    ensures PushAll(h, Motions(inputs[..i + 1]), limit) ==
      Pushed(PushAll(h, Motions(inputs[..i]), limit), inputs[i].motion, limit)
    ensures Trail(h, Motions(inputs[..i + 1]), limit) ==
      Trail(h, Motions(inputs[..i]), limit) + [PushAll(h, Motions(inputs[..i + 1]), limit)]
  {
    assert inputs[..i + 1][..i] == inputs[..i];
    assert Motions(inputs[..i + 1])[..i] == Motions(inputs[..i]);
  }

  /** Re-detecting on one more frame continues from the points the earlier frames left. */
  lemma PointsStep(points: seq<Point2>, inputs: seq<FrameInput>, i: nat)
    requires i < |inputs|
    ensures LatestPoints(points, inputs[..i + 1]) ==
      if inputs[i].detected == [] then LatestPoints(points, inputs[..i]) else ToPoints(inputs[i].detected)
  {
    assert inputs[..i + 1][..i] == inputs[..i];
  }

  /**
    The buffer after a run holds the points of the last frame whose detection
    found something, or the buffer it started with if none did.
  */
  lemma {:induction false} LatestPointsIsLastDetection(points: seq<Point2>, inputs: seq<FrameInput>)
    ensures (forall k :: 0 <= k < |inputs| ==> inputs[k].detected == []) ==>
      LatestPoints(points, inputs) == points
    ensures forall k ::
      (0 <= k < |inputs| && inputs[k].detected != [] && forall m :: k < m < |inputs| ==> inputs[m].detected == [])
      ==> LatestPoints(points, inputs) == ToPoints(inputs[k].detected)
  {
    if inputs != [] {
      var front := inputs[..|inputs| - 1];
      LatestPointsIsLastDetection(points, front);
      assert forall k :: 0 <= k < |front| ==> front[k] == inputs[k];
    }
  }

  /** Re-detection never empties a non-empty point buffer. */
  lemma {:induction false} LatestPointsNonEmpty(points: seq<Point2>, inputs: seq<FrameInput>)
    requires points != []
    ensures LatestPoints(points, inputs) != []
  {
    if inputs != [] && inputs[|inputs| - 1].detected == [] {
      LatestPointsNonEmpty(points, inputs[..|inputs| - 1]);
    }
  }

  /** The state `mainProcess` carries from one frame to the next. */
  class Stabilizer {
    const config: Config
    /** The first frame read (line 60). */
    const first: Frame
    /** `vPointsInTime`: the motion deltas of the latest frames, oldest first. */
    var history: seq<Delta>
    /** The grayscale previous frame; None while the GPU matrix is still empty. */
    var prevFrame: Option<Frame>
    /** `prevPointBuff`: the previous points on the host. */
    var prevPointBuff: seq<Point2>
    /** `prevPoints`: the copy of `prevPointBuff` uploaded for the tracker. */
    var prevPoints: seq<Point2>
    /** `cropperMat`, None until line 96 computes it. */
    var cropper: Option<CropSpec>

    /** The points are on both sides, non-empty, so the tracker may run. */
    ghost predicate PointsReady()
      reads this
    {
      prevPointBuff != [] && prevPoints == prevPointBuff
    }

    /** Everything the main loop relies on at the top of an iteration. */
    ghost predicate Ready()
      reads this
    {
      && config.historyLimit >= 1
      && |history| == config.historyLimit
      && PointsReady()
      && cropper == Some(CropOf(first, config.scaleFactor))
      && prevFrame.Some?
    }

    /** Lines 8-18 and 60: the locals as initialised, once the first frame is read. */
    constructor (config: Config, first: Frame)
      ensures this.config == config && this.first == first
      ensures history == InitialHistory(config.historyLimit)
      ensures prevFrame == None && prevPointBuff == [] && prevPoints == [] && cropper == None
    {
      this.config := config;
      this.first := first;
      history := InitialHistory(config.historyLimit);
      prevFrame := None;
      prevPointBuff := [];
      prevPoints := [];
      cropper := None;
    }

    /**
      Lines 67-77: convert the first frame to gray and detect until some
      keypoint is found. `answers[k]` is what the detector returns on the k-th
      try; the frame is the same every time. Running out of answers stands for
      the source looping forever.
    */
    method WarmUp(answers: seq<seq<KeyPoint>>) returns (found: bool)
      modifies this`prevFrame, this`prevPointBuff, this`prevPoints
      ensures found <==> prevPointBuff != []
      ensures found <==> old(prevPointBuff) != [] || SomeDetection(answers)
      ensures old(prevPointBuff) != [] ==>
        prevPointBuff == old(prevPointBuff) && prevPoints == old(prevPoints) && prevFrame == old(prevFrame)
      ensures old(prevPointBuff) == [] && found ==>
        prevPointBuff == ToPoints(answers[FirstDetection(answers)]) && PointsReady()
      ensures old(prevPointBuff) == [] && answers != [] ==> prevFrame == Some(first)
    {
      var tries := 0;
      while prevPointBuff == [] && tries < |answers|
        invariant 0 <= tries <= |answers|
        invariant old(prevPointBuff) != [] ==>
          tries == 0 && prevPointBuff == old(prevPointBuff) && prevPoints == old(prevPoints) && prevFrame == old(prevFrame)
        invariant prevPointBuff == [] ==> forall k :: 0 <= k < tries ==> answers[k] == []
        invariant old(prevPointBuff) == [] && prevPointBuff != [] ==>
          SomeDetection(answers) && FirstDetection(answers) == tries - 1 &&
          prevPointBuff == ToPoints(answers[tries - 1]) && PointsReady()
        invariant old(prevPointBuff) == [] && tries > 0 ==> prevFrame == Some(first)
      {
        // upload and cvtColor of the same first frame
        prevFrame := Some(first);
        var keypoints := answers[tries];
        if keypoints != [] {
          prevPointBuff := ToPoints(keypoints);
          prevPoints := prevPointBuff;
        }
        tries := tries + 1;
      }
      found := prevPointBuff != [];
    }

    /** Line 96: the crop transform, computed once from the first frame. */
    method InitCropper()
      modifies this`cropper
      ensures cropper == Some(CropOf(first, config.scaleFactor))
    {
      cropper := Some(CropOf(first, config.scaleFactor));
    }

    /** Lines 117-119: evict the oldest delta when the history is full, then append `d`. */
    method PushHistory(d: Delta)
      requires |history| >= config.historyLimit ==> history != []
      modifies this`history
      ensures history == Pushed(old(history), d, config.historyLimit)
    {
      if |history| >= config.historyLimit {
        history := history[1..];
      }
      history := history + [d];
    }

    /**
      Lines 122-126: subtract the moving average of the history from `d`, then
      clamp x and y to the threshold, leaving z as it is.
    */
    method Filter(d: Delta, average: (seq<Delta>, nat) -> Delta) returns (r: Delta)
      ensures r == Clamp(Sub(d, average(history, config.smoothingRadius)), config.motionThresh)
      ensures config.motionThresh >= 0.0 ==>
        Abs(r.x) <= config.motionThresh && Abs(r.y) <= config.motionThresh
      ensures r.z == d.z - average(history, config.smoothingRadius).z
    {
      r := Sub(d, average(history, config.smoothingRadius));
      if Abs(r.x) > config.motionThresh {
        r := r.(x := config.motionThresh * Sign(r.x));
      }
      if Abs(r.y) > config.motionThresh {
        r := r.(y := config.motionThresh * Sign(r.y));
      }
    }

    /** Lines 188-193: replace the previous points only when the detector found some. */
    method Redetect(detected: seq<KeyPoint>)
      modifies this`prevPointBuff, this`prevPoints
      ensures detected == [] ==> prevPointBuff == old(prevPointBuff) && prevPoints == old(prevPoints)
      ensures detected != [] ==> prevPointBuff == ToPoints(detected) && prevPoints == prevPointBuff
    {
      if detected != [] {
        prevPointBuff := ToPoints(detected);
        prevPoints := prevPointBuff;
      }
    }

    /**
      Lines 100-193, one iteration of the main loop on a frame that was read:
      the tracker runs on the non-empty previous points, the history takes the
      frame's motion, the clamped residual builds the compensating matrix, the
      frame becomes the previous frame and is re-detected.
    */
    method Step(input: FrameInput, average: (seq<Delta>, nat) -> Delta, trig: real -> (real, real))
      returns (out: FrameTransforms)
      requires Ready()
      modifies this`history, this`prevFrame, this`prevPointBuff, this`prevPoints
      ensures Ready()
      ensures history == Pushed(old(history), input.motion, config.historyLimit)
      ensures history[|history| - 1] == input.motion
      ensures out.stabilize == StabilizingMatrix(history, input.motion, config, average, trig)
      ensures config.motionThresh >= 0.0 ==>
        Abs(out.stabilize.m02) <= config.motionThresh && Abs(out.stabilize.m12) <= config.motionThresh
      ensures out.crop == CropOf(first, config.scaleFactor)
      ensures prevFrame == Some(input.frame)
      ensures input.detected == [] ==> prevPointBuff == old(prevPointBuff)
      ensures input.detected != [] ==> prevPointBuff == ToPoints(input.detected)
    {
      // the tracker at line 109 reads prevPoints, which is never empty here
      assert prevPoints != [];
      PushHistory(input.motion);
      var d := Filter(input.motion, average);
      var cosSin := trig(d.z);
      out := FrameTransforms(CompensatingMatrix(d, cosSin.0, cosSin.1), cropper.value);
      prevFrame := Some(input.frame);
      Redetect(input.detected);
    }

    /**
      Lines 97-194: the main loop over the frames read until capture fails. The
      crop transform is the same for every frame, the history ends as all the
      motions pushed, and the points are those of the latest useful detection.
    */
    method Run(inputs: seq<FrameInput>, average: (seq<Delta>, nat) -> Delta, trig: real -> (real, real))
      returns (outs: seq<FrameTransforms>)
      requires Ready()
      modifies this`history, this`prevFrame, this`prevPointBuff, this`prevPoints
      ensures Ready()
      ensures |outs| == |inputs|
      ensures outs == Outputs(Trail(old(history), Motions(inputs), config.historyLimit), inputs,
                              config, CropOf(first, config.scaleFactor), average, trig)
      ensures history == PushAll(old(history), Motions(inputs), config.historyLimit)
      ensures prevPointBuff == LatestPoints(old(prevPointBuff), inputs)
      ensures inputs != [] ==> prevFrame == Some(inputs[|inputs| - 1].frame)
    {
      outs := [];
      ghost var h0, p0 := history, prevPointBuff;
      ghost var trail: seq<seq<Delta>> := [];
      var i := 0;
      while i < |inputs|
        invariant 0 <= i <= |inputs|
        invariant Ready()
        invariant |outs| == i
        invariant history == PushAll(h0, Motions(inputs[..i]), config.historyLimit)
        invariant trail == Trail(h0, Motions(inputs[..i]), config.historyLimit)
        invariant outs == Outputs(trail, inputs[..i], config, CropOf(first, config.scaleFactor), average, trig)
        invariant prevPointBuff == LatestPoints(p0, inputs[..i])
        invariant i > 0 ==> prevFrame == Some(inputs[i - 1].frame)
      {
        var out := Step(inputs[i], average, trig);
        HistoryStep(h0, inputs, i, config.historyLimit);
        PointsStep(p0, inputs, i);
        OutputsStep(trail, history, inputs, i, config, CropOf(first, config.scaleFactor), average, trig);
        outs := outs + [out];
        trail := trail + [history];
        i := i + 1;
      }
      assert inputs[..i] == inputs;
    }
  }

  /** How `mainProcess` ends. */
  datatype Outcome =
    | NoFrame                                  // line 60: the first frame cannot be read
    | NoKeypoints                              // lines 67-77 never find a keypoint: the source spins forever
    | Stopped(outputs: seq<FrameTransforms>)   // the main loop ran on every frame read

  /**
    `mainProcess` once the capture is open: read the first frame, warm up,
    compute the crop, then run the main loop over the remaining frames.
  */
  method MainProcess(config: Config, firstRead: Option<Frame>, answers: seq<seq<KeyPoint>>,
                     inputs: seq<FrameInput>, average: (seq<Delta>, nat) -> Delta, trig: real -> (real, real))
    returns (outcome: Outcome)
    requires config.historyLimit >= 1
    ensures outcome == NoFrame <==> firstRead == None
    ensures outcome == NoKeypoints <==> firstRead != None && !SomeDetection(answers)
    ensures outcome.Stopped? ==> |outcome.outputs| == |inputs|
    ensures outcome.Stopped? ==> forall k :: 0 <= k < |inputs| ==>
      outcome.outputs[k].stabilize == StabilizingMatrix(
        Trail(InitialHistory(config.historyLimit), Motions(inputs), config.historyLimit)[k],
        inputs[k].motion, config, average, trig)
    ensures outcome.Stopped? ==> forall k :: 0 <= k < |inputs| ==>
      outcome.outputs[k].crop == CropOf(firstRead.value, config.scaleFactor)
    ensures outcome.Stopped? && config.motionThresh >= 0.0 ==> forall k :: 0 <= k < |inputs| ==>
      Abs(outcome.outputs[k].stabilize.m02) <= config.motionThresh &&
      Abs(outcome.outputs[k].stabilize.m12) <= config.motionThresh
  {
    if firstRead == None {
      return NoFrame;
    }
    var s := new Stabilizer(config, firstRead.value);
    var found := s.WarmUp(answers);
    if !found {
      return NoKeypoints;
    }
    s.InitCropper();
    var outputs := s.Run(inputs, average, trig);
    outcome := Stopped(outputs);
    ghost var trail := Trail(InitialHistory(config.historyLimit), Motions(inputs), config.historyLimit);
    OutputsAt(trail, inputs, config, CropOf(firstRead.value, config.scaleFactor), average, trig);
    if config.motionThresh >= 0.0 {
      OutputsBounded(trail, inputs, config, CropOf(firstRead.value, config.scaleFactor), average, trig);
    }
  }
}
