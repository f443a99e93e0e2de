/** ai_service/pose_extractor.py: the offline pipeline. It builds the raw window
    like the serving code does, then normalises it to [0, 1] and smooths every
    angle channel with a width-3 moving average (np.convolve, mode 'same'). */
module PoseExtractor {
  import opened Wrappers
  import opened PoseGeometry
  import opened VideoFrames

  /** A frames-by-channels array of angles. */
  type Matrix = seq<seq<real>>

  predicate IsMatrix(x: Matrix, cols: nat)
  {
    forall t :: 0 <= t < |x| ==> |x[t]| == cols
  }

  // ---------------------------------------------------------------------------
  // normalize_angles

  /** Divides every angle by 180. */
  function NormalizeAngles(x: Matrix): (y: Matrix)
    ensures |y| == |x|
    ensures forall t :: 0 <= t < |x| ==> |y[t]| == |x[t]|
  {
    seq(|x|, t requires 0 <= t < |x| => seq(|x[t]|, c requires 0 <= c < |x[t]| => x[t][c] / 180.0))
  }

  /** Angles in [0, 180] degrees land in [0, 1]. */
  lemma NormalizeIntoUnitRange(x: Matrix)
    requires forall t, c :: 0 <= t < |x| && 0 <= c < |x[t]| ==> 0.0 <= x[t][c] <= 180.0
    ensures forall t, c :: 0 <= t < |x| && 0 <= c < |x[t]| ==> 0.0 <= NormalizeAngles(x)[t][c] <= 1.0
  {
  }

  /** Normalisation loses nothing: scaling back by 180 recovers the input. */
  lemma NormalizeInvertible(x: Matrix)
    ensures var y := NormalizeAngles(x);
            seq(|y|, t requires 0 <= t < |y| => seq(|y[t]|, c requires 0 <= c < |y[t]| => y[t][c] * 180.0)) == x
  {
    var y := NormalizeAngles(x);
    var z := seq(|y|, t requires 0 <= t < |y| => seq(|y[t]|, c requires 0 <= c < |y[t]| => y[t][c] * 180.0));
    forall t | 0 <= t < |x| ensures z[t] == x[t] {
      assert forall c :: 0 <= c < |x[t]| ==> z[t][c] == x[t][c];
    }
  }

  // ---------------------------------------------------------------------------
  // np.convolve

  /** The terms j < n of the full convolution of x with v at index k. */
  function ConvSum(x: seq<real>, v: seq<real>, k: int, n: nat): real
    requires n <= |x|
  {
    if n == 0 then 0.0
    else ConvSum(x, v, k, n - 1) + (if 0 <= k - (n - 1) < |v| then x[n - 1] * v[k - (n - 1)] else 0.0)
  }

  /** The full discrete convolution: entry k is the sum over j of x[j] * v[k - j]. */
  function FullConvolve(x: seq<real>, v: seq<real>): (r: seq<real>)
    requires 1 <= |x| && 1 <= |v|
    ensures |r| == |x| + |v| - 1
  {
    seq(|x| + |v| - 1, k => ConvSum(x, v, k, |x|))
  }

  /** np.convolve(x, v, mode='same') for a kernel no longer than x: the |x|
      central entries of the full convolution. */
  function ConvolveSame(x: seq<real>, v: seq<real>): (r: seq<real>)
    requires 1 <= |v| <= |x|
    ensures |r| == |x|
  {
    FullConvolve(x, v)[(|v| - 1) / 2 .. (|v| - 1) / 2 + |x|]
  }

  /** np.ones(w) / w. */
  function Box(w: nat): (k: seq<real>)
    requires w >= 1
    ensures |k| == w
  {
    seq(w, _ => 1.0 / w as real)
  }

  /** x[j], or 0 outside x: the zero that 'same' mode puts past either edge. */
  function Clip(x: seq<real>, j: int): real
  {
    if 0 <= j < |x| then x[j] else 0.0
  }

  function ClipTo(x: seq<real>, j: int, n: nat): real
    requires n <= |x|
  {
    if 0 <= j < n then x[j] else 0.0
  }

  lemma {:induction false} ConvSumBox3(x: seq<real>, k: int, n: nat)
    requires n <= |x|
    ensures ConvSum(x, Box(3), k, n) == (ClipTo(x, k - 2, n) + ClipTo(x, k - 1, n) + ClipTo(x, k, n)) / 3.0
  {
    if n > 0 {
      ConvSumBox3(x, k, n - 1);
    }
  }

  /** With the width-3 box kernel, 'same' mode is the three-point average in
      which a missing neighbour counts as zero. */
  lemma ConvolveSameBox3(x: seq<real>, i: nat)
    requires 3 <= |x| && i < |x|
    ensures ConvolveSame(x, Box(3))[i] == (Clip(x, i - 1) + x[i] + Clip(x, i + 1)) / 3.0
  {
    assert ConvolveSame(x, Box(3))[i] == FullConvolve(x, Box(3))[i + 1];
    ConvSumBox3(x, i + 1, |x|);
  }

  // ---------------------------------------------------------------------------
  // smooth_angles

  function Column(x: Matrix, c: nat): (col: seq<real>)
    requires forall t :: 0 <= t < |x| ==> c < |x[t]|
    ensures |col| == |x|
  {
    seq(|x|, t requires 0 <= t < |x| => x[t][c])
  }

  /** x with column c replaced by col: smoothed[:, c] = col. */
  function SetColumn(x: Matrix, c: nat, col: seq<real>): (y: Matrix)
    requires |col| == |x|
    requires forall t :: 0 <= t < |x| ==> c < |x[t]|
    ensures |y| == |x|
  {
    seq(|x|, t requires 0 <= t < |x| => x[t][c := col[t]])
  }

  /** The smoothed array: every channel convolved, on its own, with the box kernel. */
  function Smoothed(x: Matrix, w: nat): (y: Matrix)
    requires 1 <= w <= |x| && IsMatrix(x, |x[0]|)
    ensures |y| == |x| && IsMatrix(y, |x[0]|)
  {
    seq(|x|, t requires 0 <= t < |x| =>
      seq(|x[0]|, c requires 0 <= c < |x[0]| => ConvolveSame(Column(x, c), Box(w))[t]))
  }

  /** smooth_angles: copy the array, then overwrite each channel with its convolution. */
  method SmoothAngles(x: Matrix, windowSize: nat) returns (s: Matrix)
    requires 1 <= windowSize <= |x| && IsMatrix(x, |x[0]|)
    ensures s == Smoothed(x, windowSize)
  {
    var cols := |x[0]|;
    var kernel := Box(windowSize);
    s := x;
    for c := 0 to cols
      invariant |s| == |x| && IsMatrix(s, cols)
      invariant forall t, d :: 0 <= t < |x| && 0 <= d < c ==> s[t][d] == ConvolveSame(Column(x, d), kernel)[t]
      invariant forall t, d :: 0 <= t < |x| && c <= d < cols ==> s[t][d] == x[t][d]
    {
      s := SetColumn(s, c, ConvolveSame(Column(x, c), kernel));
    }
    ghost var spec := Smoothed(x, windowSize);
    forall t | 0 <= t < |x| ensures s[t] == spec[t] {
      assert forall d :: 0 <= d < cols ==> s[t][d] == spec[t][d];
    }
  }

  /** Width-3 smoothing at frame t of channel c, as an explicit average. */
  lemma SmoothedBox3At(x: Matrix, t: nat, c: nat)
    requires 3 <= |x| && IsMatrix(x, |x[0]|) && t < |x| && c < |x[0]|
    ensures Smoothed(x, 3)[t][c] == (Clip(Column(x, c), t - 1) + x[t][c] + Clip(Column(x, c), t + 1)) / 3.0
  {
    ConvolveSameBox3(Column(x, c), t);
  }

  /** Interior frames get the full three-frame mean; the two edge frames lose
      one neighbour, which counts as zero, not as a partial-window average. */
  lemma SmoothedBox3Shape(x: Matrix, c: nat)
    requires 3 <= |x| && IsMatrix(x, |x[0]|) && c < |x[0]|
    ensures forall t :: 1 <= t < |x| - 1 ==> Smoothed(x, 3)[t][c] == (x[t - 1][c] + x[t][c] + x[t + 1][c]) / 3.0
    ensures Smoothed(x, 3)[0][c] == (x[0][c] + x[1][c]) / 3.0
    ensures Smoothed(x, 3)[|x| - 1][c] == (x[|x| - 2][c] + x[|x| - 1][c]) / 3.0
  {
    var col := Column(x, c);
    forall t | 1 <= t < |x| - 1
      ensures Smoothed(x, 3)[t][c] == (x[t - 1][c] + x[t][c] + x[t + 1][c]) / 3.0
    {
      SmoothedBox3At(x, t, c);
      assert Clip(col, t - 1) == x[t - 1][c] && Clip(col, t + 1) == x[t + 1][c];
    }
    SmoothedBox3At(x, 0, c);
    assert Clip(col, -1) == 0.0 && Clip(col, 1) == x[1][c];
    SmoothedBox3At(x, |x| - 1, c);
    assert Clip(col, |x|) == 0.0 && Clip(col, |x| - 2) == x[|x| - 2][c];
  }

  /** A constant channel keeps its value inside, but its two edge frames drop to two thirds of it. */
  lemma SmoothedConstantChannel(x: Matrix, c: nat, a: real)
    requires 3 <= |x| && IsMatrix(x, |x[0]|) && c < |x[0]|
    requires forall t :: 0 <= t < |x| ==> x[t][c] == a
    ensures forall t :: 1 <= t < |x| - 1 ==> Smoothed(x, 3)[t][c] == a
    ensures Smoothed(x, 3)[0][c] == Smoothed(x, 3)[|x| - 1][c] == 2.0 * a / 3.0
  {
    SmoothedBox3Shape(x, c);
    forall t | 1 <= t < |x| - 1 ensures Smoothed(x, 3)[t][c] == a {
      assert x[t - 1][c] == x[t][c] == x[t + 1][c] == a;
    }
  }

  /** Values in [0, 1] stay in [0, 1] under width-3 smoothing. */
  lemma SmoothedStaysInUnitRange(x: Matrix)
    requires 3 <= |x| && IsMatrix(x, |x[0]|)
    requires forall t, c :: 0 <= t < |x| && 0 <= c < |x[0]| ==> 0.0 <= x[t][c] <= 1.0
    ensures forall t, c :: 0 <= t < |x| && 0 <= c < |x[0]| ==> 0.0 <= Smoothed(x, 3)[t][c] <= 1.0
  {
    forall t, c | 0 <= t < |x| && 0 <= c < |x[0]|
      ensures 0.0 <= Smoothed(x, 3)[t][c] <= 1.0
    {
      SmoothedBox3At(x, t, c);
    }
  }

  /** All-zero input is smoothed to all zeros. */
  lemma SmoothedZeros(x: Matrix)
    requires 3 <= |x| && IsMatrix(x, |x[0]|)
    requires forall t, c :: 0 <= t < |x| && 0 <= c < |x[0]| ==> x[t][c] == 0.0
    ensures forall t, c :: 0 <= t < |x| && 0 <= c < |x[0]| ==> Smoothed(x, 3)[t][c] == 0.0
  {
    forall t, c | 0 <= t < |x| && 0 <= c < |x[0]|
      ensures Smoothed(x, 3)[t][c] == 0.0
    {
      SmoothedBox3At(x, t, c);
    }
  }

  /** Channels are smoothed independently: channel c of the output depends only on channel c of the input. */
  lemma SmoothedChannelsIndependent(x: Matrix, y: Matrix, w: nat, c: nat)
    requires 1 <= w <= |x| && IsMatrix(x, |x[0]|) && |y| == |x| && IsMatrix(y, |y[0]|)
    requires c < |x[0]| && c < |y[0]| && Column(x, c) == Column(y, c)
    ensures Column(Smoothed(x, w), c) == Column(Smoothed(y, w), c)
  {
  }

  // ---------------------------------------------------------------------------
  // extract_pose_angle_sequence

  /** The width of the smoothing window the pipeline uses. */
  const SmoothingWidth: nat := 3

  /** Reads frames until seqLength rows are collected or the video ends, pads
      with zero rows, normalises, then smooths. A window shorter than the
      smoothing width makes numpy raise, modelled as Err. `consumed` is the
      number of frames decoded. */
  method ExtractPoseAngleSequence(atan2: Atan2Deg, video: Video, seqLength: nat)
    returns (r: Result<Matrix, string>, consumed: nat)
    ensures consumed == Min(|video|, seqLength)
    ensures r.Ok? <==> seqLength >= SmoothingWidth
    ensures r.Ok? ==> r.value == Smoothed(NormalizeAngles(RawWindow(atan2, video[..consumed], seqLength)), SmoothingWidth)
  {
    var rows: seq<AngleVector>;
    rows, consumed := ReadAngleRows(atan2, video, seqLength);
    var normalized := NormalizeAngles(rows);
    if seqLength < SmoothingWidth {
      r := Err("smoothing needs at least as many frames as the window width");
    } else {
      var smoothed := SmoothAngles(normalized, SmoothingWidth);
      r := Ok(smoothed);
    }
  }

  /** Every entry of a successful result lies in [0, 1]. */
  lemma PipelineInUnitRange(atan2: Atan2Deg, video: Video, n: nat)
    requires n >= SmoothingWidth
    ensures var x := NormalizeAngles(RawWindow(atan2, video, n));
            forall t, c :: 0 <= t < n && 0 <= c < AngleCount ==> 0.0 <= Smoothed(x, SmoothingWidth)[t][c] <= 1.0
  {
    var raw := RawWindow(atan2, video, n);
    NormalizeIntoUnitRange(raw);
    SmoothedStaysInUnitRange(NormalizeAngles(raw));
  }

  /** A video without a single detected pose produces an all-zero result. */
  lemma PipelineWithoutPoses(atan2: Atan2Deg, video: Video, n: nat)
    requires n >= SmoothingWidth
    requires forall k :: 0 <= k < |video| ==> video[k].pose.None?
    ensures var x := NormalizeAngles(RawWindow(atan2, video, n));
            forall t, c :: 0 <= t < n && 0 <= c < AngleCount ==> Smoothed(x, SmoothingWidth)[t][c] == 0.0
  {
    var raw := RawWindow(atan2, video, n);
    RawWindowWithoutPoses(atan2, video, n);
    SmoothedZeros(NormalizeAngles(raw));
  }
}
