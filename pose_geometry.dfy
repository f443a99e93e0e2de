/** The angle geometry of one frame: from the pose detector's landmarks to the
    11-entry angle vector. ai_service/pose_extractor.py and ai_service/app.py
    carry identical copies of this code; it is modelled once, here. */
module PoseGeometry {
  import opened Floats

  /** A bearing function in degrees: atan2(dy, dx) * 180 / pi. Only the two facts
      the angle code depends on are assumed of it: its range is (-180, 180], and
      a ray pointing along +y (down the image) has bearing 90. */
  ghost predicate IsBearing(f: (real, real) -> real)
  {
    && (forall dy, dx :: -180.0 < f(dy, dx) <= 180.0)
    && (forall dy :: dy > 0.0 ==> f(dy, 0.0) == 90.0)
  }

  type Atan2Deg = f: (real, real) -> real | IsBearing(f)
    witness (dy: real, dx: real) => if dx == 0.0 && dy > 0.0 then 90.0 else 0.0

  /** One landmark as the detector reports it: coordinates normalised to the frame. */
  datatype Landmark = Landmark(x: Float, y: Float)

  /** The detector always reports this many landmarks per detected pose. */
  const LandmarkCount: nat := 33

  type PoseLandmarks = s: seq<Landmark> | |s| == LandmarkCount
    witness seq(LandmarkCount, _ => Landmark(Num(0.0), Num(0.0)))

  // Landmark indices of the pose detector's skeleton.
  const LeftShoulder: nat := 11
  const RightShoulder: nat := 12
  const LeftElbow: nat := 13
  const RightElbow: nat := 14
  const LeftWrist: nat := 15
  const RightWrist: nat := 16
  const LeftHip: nat := 23
  const RightHip: nat := 24
  const LeftKnee: nat := 25
  const RightKnee: nat := 26
  const LeftAnkle: nat := 27
  const RightAnkle: nat := 28

  /** A point in pixel space. */
  datatype Point = Point(x: Float, y: Float)

  type AngleVector = seq<real>

  const AngleCount: nat := 11

  // Positions in the angle vector: seven left-side entries, then four right-side ones.
  const KneeL: nat := 0
  const AnkleL: nat := 1
  const ShoulderGroundL: nat := 2
  const ElbowGroundL: nat := 3
  const HipGroundL: nat := 4
  const KneeGroundL: nat := 5
  const AnkleGroundL: nat := 6
  const KneeR: nat := 7
  const AnkleR: nat := 8
  const ShoulderGroundR: nat := 9
  const ElbowGroundR: nat := 10

  /** De-normalises a landmark against the frame's width and height. */
  function ToPoint(lm: Landmark, height: nat, width: nat): Point
  {
    Point(Scale(lm.x, width as real), Scale(lm.y, height as real))
  }

  /** The synthetic point `dy` pixels below `p` (above it when `dy` is negative). */
  function Below(p: Point, dy: real): Point
  {
    Point(p.x, Shift(p.y, dy))
  }

  /** The magnitude of a bearing difference, reflected into [0, 180]. */
  function Reflect(d: real): real
  {
    var angle := Abs(d);
    if angle > 180.0 then 360.0 - angle else angle
  }

  /** The angle at vertex `b` between the rays to `a` and to `c`, or NaN when a
      coordinate is NaN. */
  function CalculateAngle(atan2: Atan2Deg, a: Point, b: Point, c: Point): (r: Float)
    ensures r.Num? ==> 0.0 <= r.v <= 180.0
    ensures r.Num? <==> a.x.Num? && a.y.Num? && b.x.Num? && b.y.Num? && c.x.Num? && c.y.Num?
  {
    var cy, cx, ay, ax := Sub(c.y, b.y), Sub(c.x, b.x), Sub(a.y, b.y), Sub(a.x, b.x);
    if cy.Num? && cx.Num? && ay.Num? && ax.Num? then
      Num(Reflect(atan2(cy.v, cx.v) - atan2(ay.v, ax.v)))
    else
      NaN
  }

  /** The list comprehension that replaces NaN by 0. */
  function ScrubNaN(xs: seq<Float>): (r: seq<real>)
    ensures |r| == |xs|
    ensures forall i :: 0 <= i < |xs| && xs[i].NaN? ==> r[i] == 0.0
    ensures forall i :: 0 <= i < |xs| && xs[i].Num? ==> r[i] == xs[i].v
  {
    seq(|xs|, i requires 0 <= i < |xs| => if xs[i].NaN? then 0.0 else xs[i].v)
  }

  /** The eleven angles before NaN replacement, in the source's order. The two
      wrist landmarks are read by the source but never used, so they are not read here. */
  function RawAngles(atan2: Atan2Deg, lms: PoseLandmarks, height: nat, width: nat): (r: seq<Float>)
    ensures |r| == AngleCount
    ensures forall i :: 0 <= i < |r| && r[i].Num? ==> 0.0 <= r[i].v <= 180.0
  {
    var shoulderL := ToPoint(lms[LeftShoulder], height, width);
    var elbowL := ToPoint(lms[LeftElbow], height, width);
    var hipL := ToPoint(lms[LeftHip], height, width);
    var kneeL := ToPoint(lms[LeftKnee], height, width);
    var ankleL := ToPoint(lms[LeftAnkle], height, width);
    var shoulderR := ToPoint(lms[RightShoulder], height, width);
    var elbowR := ToPoint(lms[RightElbow], height, width);
    var hipR := ToPoint(lms[RightHip], height, width);
    var kneeR := ToPoint(lms[RightKnee], height, width);
    var ankleR := ToPoint(lms[RightAnkle], height, width);
    [ CalculateAngle(atan2, hipL, kneeL, ankleL),
      CalculateAngle(atan2, kneeL, ankleL, Below(ankleL, -1.0)),
      CalculateAngle(atan2, shoulderL, hipL, Below(hipL, 100.0)),
      CalculateAngle(atan2, elbowL, shoulderL, Below(shoulderL, 100.0)),
      CalculateAngle(atan2, hipL, kneeL, Below(kneeL, 100.0)),
      CalculateAngle(atan2, kneeL, ankleL, Below(ankleL, 100.0)),
      CalculateAngle(atan2, ankleL, Below(ankleL, -1.0), Below(ankleL, 100.0)),
      CalculateAngle(atan2, hipR, kneeR, ankleR),
      CalculateAngle(atan2, kneeR, ankleR, Below(ankleR, -1.0)),
      CalculateAngle(atan2, shoulderR, hipR, Below(hipR, 100.0)),
      CalculateAngle(atan2, elbowR, shoulderR, Below(shoulderR, 100.0)) ]
  }

  /** A pose whose coordinates are all finite gives no NaN angle, so the NaN
      replacement only ever acts on poses with a NaN coordinate. */
  lemma FinitePoseGivesNoNaN(atan2: Atan2Deg, lms: PoseLandmarks, height: nat, width: nat)
    requires forall i :: 0 <= i < LandmarkCount ==> lms[i].x.Num? && lms[i].y.Num?
    ensures forall i :: 0 <= i < AngleCount ==> RawAngles(atan2, lms, height, width)[i].Num?
  {
    assert lms[LeftShoulder].x.Num? && lms[LeftShoulder].y.Num?;
    assert lms[LeftElbow].x.Num? && lms[LeftElbow].y.Num?;
    assert lms[LeftHip].x.Num? && lms[LeftHip].y.Num?;
    assert lms[LeftKnee].x.Num? && lms[LeftKnee].y.Num?;
    assert lms[LeftAnkle].x.Num? && lms[LeftAnkle].y.Num?;
    assert lms[RightShoulder].x.Num? && lms[RightShoulder].y.Num?;
    assert lms[RightElbow].x.Num? && lms[RightElbow].y.Num?;
    assert lms[RightHip].x.Num? && lms[RightHip].y.Num?;
    assert lms[RightKnee].x.Num? && lms[RightKnee].y.Num?;
    assert lms[RightAnkle].x.Num? && lms[RightAnkle].y.Num?;
  }

  /** extract_angles_from_landmarks: eleven angles, each in [0, 180], never NaN. */
  function ExtractAngles(atan2: Atan2Deg, lms: PoseLandmarks, height: nat, width: nat): (angles: AngleVector)
    ensures |angles| == AngleCount
    ensures forall i :: 0 <= i < |angles| ==> 0.0 <= angles[i] <= 180.0
  {
    ScrubNaN(RawAngles(atan2, lms, height, width))
  }

  /** The all-zero vector used for frames without a pose and for padding. */
  function ZeroAngles(): (z: AngleVector)
    ensures |z| == AngleCount && forall i :: 0 <= i < |z| ==> z[i] == 0.0
  {
    seq(AngleCount, _ => 0.0)
  }

  /** The angle is the minor arc between the two bearings: the smaller of the
      difference's magnitude and its complement to a full turn. */
  lemma AngleIsMinorArc(atan2: Atan2Deg, a: Point, b: Point, c: Point)
    requires a.x.Num? && a.y.Num? && b.x.Num? && b.y.Num? && c.x.Num? && c.y.Num?
    ensures var d := Abs(atan2(c.y.v - b.y.v, c.x.v - b.x.v) - atan2(a.y.v - b.y.v, a.x.v - b.x.v));
            d < 360.0 &&
            CalculateAngle(atan2, a, b, c) == Num(if d <= 360.0 - d then d else 360.0 - d)
  {
  }

  /** Swapping the two ray endpoints does not change the angle. */
  lemma AngleSymmetric(atan2: Atan2Deg, a: Point, b: Point, c: Point)
    ensures CalculateAngle(atan2, a, b, c) == CalculateAngle(atan2, c, b, a)
  {
  }

  /** The left ankle-to-ground entry is 0 for every pose: its two rays both point
      straight down from a vertex one pixel above the ankle. */
  lemma AnkleGroundAlwaysZero(atan2: Atan2Deg, lms: PoseLandmarks, height: nat, width: nat)
    ensures ExtractAngles(atan2, lms, height, width)[AnkleGroundL] == 0.0
  {
    var ankle := ToPoint(lms[LeftAnkle], height, width);
    var vertex := Below(ankle, -1.0);
    var ground := Below(ankle, 100.0);
    if ankle.x.Num? && ankle.y.Num? {
      assert Sub(ground.y, vertex.y) == Num(101.0);
      assert Sub(ankle.y, vertex.y) == Num(1.0);
      assert Sub(ground.x, vertex.x) == Num(0.0) == Sub(ankle.x, vertex.x);
      assert atan2(101.0, 0.0) == 90.0 && atan2(1.0, 0.0) == 90.0;
      assert CalculateAngle(atan2, ankle, vertex, ground) == Num(0.0);
    }
  }

  /** The landmark index of the same joint on the other side of the body. */
  function MirrorIndex(i: nat): nat
  {
    if i in {LeftShoulder, LeftElbow, LeftWrist, LeftHip, LeftKnee, LeftAnkle} then i + 1
    else if i in {RightShoulder, RightElbow, RightWrist, RightHip, RightKnee, RightAnkle} then i - 1
    else i
  }

  /** The pose with left and right joints exchanged. */
  function Mirror(lms: PoseLandmarks): (m: PoseLandmarks)
  {
    seq(LandmarkCount, i requires 0 <= i < LandmarkCount => lms[MirrorIndex(i)])
  }

  /** The layout's asymmetry: the four right-side entries are exactly the first
      four left-side entries of the mirrored pose; the left hip-, knee- and
      ankle-to-ground entries have no right-side counterpart. */
  lemma RightSideMirrorsLeft(atan2: Atan2Deg, lms: PoseLandmarks, height: nat, width: nat)
    ensures ExtractAngles(atan2, lms, height, width)[KneeR..] == ExtractAngles(atan2, Mirror(lms), height, width)[..AngleCount - KneeR]
  {
    var m := Mirror(lms);
    assert m[LeftShoulder] == lms[RightShoulder];
    assert m[LeftElbow] == lms[RightElbow];
    assert m[LeftHip] == lms[RightHip];
    assert m[LeftKnee] == lms[RightKnee];
    assert m[LeftAnkle] == lms[RightAnkle];
    var raw, rawM := RawAngles(atan2, lms, height, width), RawAngles(atan2, m, height, width);
    assert forall k :: 0 <= k < 4 ==> raw[KneeR + k] == rawM[k];
    var angles, anglesM := ScrubNaN(raw), ScrubNaN(rawM);
    assert forall k :: 0 <= k < 4 ==> angles[KneeR + k] == anglesM[k];
  }

  /** The wrists are read but never used: poses that differ only at the wrists
      give the same angles. */
  lemma WristsIgnored(atan2: Atan2Deg, lms: PoseLandmarks, other: PoseLandmarks, height: nat, width: nat)
    requires forall i :: 0 <= i < LandmarkCount && i != LeftWrist && i != RightWrist ==> lms[i] == other[i]
    ensures ExtractAngles(atan2, lms, height, width) == ExtractAngles(atan2, other, height, width)
  {
    assert RawAngles(atan2, lms, height, width) == RawAngles(atan2, other, height, width);
  }
}
