/** The frame source both sequence builders read from, and the window they
    assemble from it. Decoding and pose detection are external: a video is the
    sequence of its decoded frames, each carrying the detector's answer. */
module VideoFrames {
  import opened Wrappers
  import opened PoseGeometry

  /** One decoded frame: its pixel size and the detected pose, if any. */
  datatype Frame = Frame(height: nat, width: nat, pose: Option<PoseLandmarks>)

  type Video = seq<Frame>

  /** The window length both builders default to. */
  const DefaultSeqLength: nat := 30

  function Min(a: nat, b: nat): nat
  {
    if a <= b then a else b
  }

  /** The row a frame contributes: its angle vector, or the zero sentinel when no pose was found. */
  function FrameAngles(atan2: Atan2Deg, f: Frame): (v: AngleVector)
    ensures |v| == AngleCount
    ensures forall j :: 0 <= j < |v| ==> 0.0 <= v[j] <= 180.0
    ensures f.pose.None? ==> v == ZeroAngles()
  {
    match f.pose
    case Some(lms) => ExtractAngles(atan2, lms, f.height, f.width)
    case None => ZeroAngles()
  }

  /** The raw window of length n: row i is frame i's row while the video lasts,
      and zero padding after it. */
  function RawWindow(atan2: Atan2Deg, video: Video, n: nat): (w: seq<AngleVector>)
    ensures |w| == n
    ensures forall i :: 0 <= i < n ==> |w[i]| == AngleCount
    ensures forall i, j :: 0 <= i < n && 0 <= j < AngleCount ==> 0.0 <= w[i][j] <= 180.0
  {
    seq(n, i requires 0 <= i < n => WindowRow(atan2, video, i))
  }

  /** Row i of a raw window: frame i's row while the video lasts, zeros after it. */
  function WindowRow(atan2: Atan2Deg, video: Video, i: nat): (v: AngleVector)
    ensures |v| == AngleCount
    ensures forall j :: 0 <= j < AngleCount ==> 0.0 <= v[j] <= 180.0
  {
    if i < |video| then FrameAngles(atan2, video[i]) else ZeroAngles()
  }

  /** The frame-reading loop both builders share: read frames until n rows are
      collected or the video ends, one row per frame (zeros when no pose was
      detected), then pad with zero rows. `consumed` is the number of frames
      decoded. */
  method ReadAngleRows(atan2: Atan2Deg, video: Video, n: nat) returns (rows: seq<AngleVector>, consumed: nat)
    ensures consumed == Min(|video|, n)
    ensures rows == RawWindow(atan2, video[..consumed], n)
  {
    rows := [];
    consumed := 0;
    while |rows| < n
      invariant consumed == |rows| <= n && consumed <= |video|
      invariant forall i :: 0 <= i < consumed ==> rows[i] == FrameAngles(atan2, video[i])
    {
      if consumed == |video| {
        break;
      }
      rows := rows + [FrameAngles(atan2, video[consumed])];
      consumed := consumed + 1;
    }
    while |rows| < n
      invariant consumed <= |rows| <= n
      invariant forall i :: 0 <= i < consumed ==> rows[i] == FrameAngles(atan2, video[i])
      invariant forall i :: consumed <= i < |rows| ==> rows[i] == ZeroAngles()
    {
      rows := rows + [ZeroAngles()];
    }
    BuiltRowsAreRawWindow(atan2, video, n, consumed, rows);
  }

  /** What the reading loop establishes: the first `consumed` rows come from
      the decoded frames and the rest are padding. */
  lemma BuiltRowsAreRawWindow(atan2: Atan2Deg, video: Video, n: nat, consumed: nat, rows: seq<AngleVector>)
    requires consumed == Min(|video|, n) && |rows| == n
    requires forall i :: 0 <= i < consumed ==> rows[i] == FrameAngles(atan2, video[i])
    requires forall i :: consumed <= i < n ==> rows[i] == ZeroAngles()
    ensures rows == RawWindow(atan2, video[..consumed], n)
  {
    var window := RawWindow(atan2, video[..consumed], n);
    forall i | 0 <= i < n ensures rows[i] == window[i] {
      assert window[i] == WindowRow(atan2, video[..consumed], i);
      if i < consumed {
        assert video[..consumed][i] == video[i];
      }
    }
  }

  /** Frames past the first n never influence the window. */
  lemma RawWindowReadsOnlyPrefix(atan2: Atan2Deg, video: Video, n: nat)
    ensures RawWindow(atan2, video, n) == RawWindow(atan2, video[..Min(|video|, n)], n)
  {
    var short := video[..Min(|video|, n)];
    forall i | 0 <= i < n
      ensures RawWindow(atan2, video, n)[i] == RawWindow(atan2, short, n)[i]
    {
      if i < |short| {
        assert short[i] == video[i];
      }
    }
  }

  /** A video in which no frame has a detected pose yields an all-zero window. */
  lemma RawWindowWithoutPoses(atan2: Atan2Deg, video: Video, n: nat)
    requires forall k :: 0 <= k < |video| ==> video[k].pose.None?
    ensures forall i, j :: 0 <= i < n && 0 <= j < AngleCount ==> RawWindow(atan2, video, n)[i][j] == 0.0
  {
  }
}
