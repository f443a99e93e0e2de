/** ai_service/app.py: the serving path. Its sequence builder skips
    normalisation and smoothing; each upload is classified by the argmax of the
    classifier's output, and the batch verdict asks for a confident result for
    each of three required exercises. */
module ServingApp {
  import opened Wrappers
  import opened PoseGeometry
  import opened VideoFrames

  /** The classifier's output vocabulary, in output-index order. */
  const Labels: seq<string> := ["Jumping Jacks", "Push-ups", "Pull-ups", "Squats", "Russian Twists"]

  const RequiredExercises: seq<string> := ["Push-ups", "Squats", "Jumping Jacks"]

  /** A result qualifies only when its confidence is strictly above this. */
  const ConfidenceThreshold: real := 0.7

  const EligibleReport := "Eligible for selection"
  const NotEligibleReport := "Not eligible"

  /** The trained model, an external collaborator: a probability for each label. */
  ghost predicate IsClassifier(f: seq<AngleVector> -> seq<real>)
  {
    forall s :: |f(s)| == |Labels| && forall i :: 0 <= i < |f(s)| ==> 0.0 <= f(s)[i] <= 1.0
  }

  type Classifier = f: seq<AngleVector> -> seq<real> | IsClassifier(f)
    witness (s: seq<AngleVector>) => [0.2, 0.2, 0.2, 0.2, 0.2]

  /** One upload of the batch. */
  datatype Upload = Upload(filename: string, video: Video)

  /** One entry of per_video_results. */
  datatype VideoResult = VideoResult(filename: string, exercise: string, confidence: real)

  /** The HTTP answer: a 400 rejection with its message, or the report. */
  datatype Response =
    | Rejected(error: string)
    | Report(perVideoResults: seq<VideoResult>, finalReport: string)

  // ---------------------------------------------------------------------------
  // process_video

  /** np.argmax: the first index holding the largest value. */
  function ArgMax(p: seq<real>): (k: nat)
    requires |p| > 0
    ensures k < |p|
    ensures forall j :: 0 <= j < |p| ==> p[j] <= p[k]
    ensures forall j :: 0 <= j < k ==> p[j] < p[k]
  {
    if |p| == 1 then 0
    else
      var k := ArgMax(p[..|p| - 1]);
      if p[|p| - 1] > p[k] then |p| - 1 else k
  }

  /** The two properties of ArgMax pin the index down: no other index has them. */
  lemma ArgMaxUnique(p: seq<real>, i: nat)
    requires i < |p|
    requires forall j :: 0 <= j < |p| ==> p[j] <= p[i]
    requires forall j :: 0 <= j < i ==> p[j] < p[i]
    ensures ArgMax(p) == i
  {
  }

  datatype Prediction = Prediction(exercise: string, confidence: real)

  /** The label at the argmax of the probabilities, with the probability found there. */
  function Predict(probs: seq<real>): (r: Prediction)
    requires |probs| == |Labels|
    ensures exists k :: 0 <= k < |probs| && r == Prediction(Labels[k], probs[k])
              && (forall j :: 0 <= j < k ==> probs[j] < probs[k])
    ensures forall j :: 0 <= j < |probs| ==> probs[j] <= r.confidence
  {
    var k := ArgMax(probs);
    Prediction(Labels[k], probs[k])
  }

  /** The classifier's confidence is a probability. */
  lemma PredictConfidenceIsProbability(model: Classifier, x: seq<AngleVector>)
    ensures 0.0 <= Predict(model(x)).confidence <= 1.0
  {
    var k := ArgMax(model(x));
    assert Predict(model(x)).confidence == model(x)[k];
  }

  /** process_video: build the raw 30-frame window, classify it. */
  method ProcessVideo(atan2: Atan2Deg, model: Classifier, video: Video) returns (p: Prediction)
    ensures p == Predict(model(RawWindow(atan2, video, DefaultSeqLength)))
  {
    var rows, _ := ReadAngleRows(atan2, video, DefaultSeqLength);
    RawWindowReadsOnlyPrefix(atan2, video, DefaultSeqLength);
    var probs := model(rows);
    p := Predict(probs);
  }

  // ---------------------------------------------------------------------------
  // upload_multiple_videos

  /** The all/any rule: every required exercise has some result for it with
      confidence strictly above the threshold. */
  predicate Eligible(results: seq<VideoResult>)
  {
    forall req :: req in RequiredExercises ==>
      exists r :: r in results && r.exercise == req && r.confidence > ConfidenceThreshold
  }

  /** The result the batch reports for one upload. */
  function ResultFor(atan2: Atan2Deg, model: Classifier, u: Upload): (r: VideoResult)
    ensures r.filename == u.filename
    ensures r.exercise in Labels
    ensures 0.0 <= r.confidence <= 1.0
  {
    var x := RawWindow(atan2, u.video, DefaultSeqLength);
    var p := Predict(model(x));
    PredictConfidenceIsProbability(model, x);
    VideoResult(u.filename, p.exercise, p.confidence)
  }

  /** An eligible batch holds at least three results: the three required
      exercises are distinct labels, so no single result serves two of them. */
  lemma EligibleNeedsThreeResults(results: seq<VideoResult>)
    requires Eligible(results)
    ensures |results| >= |RequiredExercises|
  {
    assert RequiredExercises[0] in RequiredExercises;
    assert RequiredExercises[1] in RequiredExercises;
    assert RequiredExercises[2] in RequiredExercises;
    var a :| a in results && a.exercise == RequiredExercises[0] && a.confidence > ConfidenceThreshold;
    var b :| b in results && b.exercise == RequiredExercises[1] && b.confidence > ConfidenceThreshold;
    var c :| c in results && c.exercise == RequiredExercises[2] && c.confidence > ConfidenceThreshold;
    var i :| 0 <= i < |results| && results[i] == a;
    var j :| 0 <= j < |results| && results[j] == b;
    var k :| 0 <= k < |results| && results[k] == c;
    assert i != j && j != k && i != k;
  }

  /** Rejects a request without uploads before processing any video; otherwise
      classifies each upload in order and reports the verdict. `processed`
      counts the videos run through the classifier. */
  method UploadMultipleVideos(atan2: Atan2Deg, model: Classifier, videos: Option<seq<Upload>>)
    returns (response: Response, processed: nat)
    ensures videos.None? ==> response == Rejected("No videos uploaded.") && processed == 0
    ensures videos == Some([]) ==> response == Rejected("No video files provided.") && processed == 0
    ensures videos.Some? && videos.value != [] ==>
      && processed == |videos.value|
      && response.Report?
      && |response.perVideoResults| == |videos.value|
      && (forall i :: 0 <= i < |videos.value| ==>
            response.perVideoResults[i] == ResultFor(atan2, model, videos.value[i]))
      && response.finalReport == (if Eligible(response.perVideoResults) then EligibleReport else NotEligibleReport)
  {
    processed := 0;
    if videos.None? {
      response := Rejected("No videos uploaded.");
      return;
    }
    var files := videos.value;
    if files == [] {
      response := Rejected("No video files provided.");
      return;
    }
    var results: seq<VideoResult> := [];
    for i := 0 to |files|
      invariant processed == i == |results|
      invariant forall j :: 0 <= j < i ==> results[j] == ResultFor(atan2, model, files[j])
    {
      var p := ProcessVideo(atan2, model, files[i].video);
      processed := processed + 1;
      results := results + [VideoResult(files[i].filename, p.exercise, p.confidence)];
    }
    var eligible := Eligible(results);
    response := Report(results, if eligible then EligibleReport else NotEligibleReport);
  }

  // ---------------------------------------------------------------------------
  // Properties of the eligibility rule

  /** The exercises for which the batch holds a qualifying result. */
  function QualifiedExercises(results: seq<VideoResult>): set<string>
  {
    set r | r in results && r.confidence > ConfidenceThreshold :: r.exercise
  }

  /** The rule as a set inclusion: eligible exactly when every required exercise is qualified. */
  lemma EligibleIffRequiredQualified(results: seq<VideoResult>)
    ensures Eligible(results) <==> (forall req :: req in RequiredExercises ==> req in QualifiedExercises(results))
  {
    if Eligible(results) {
      forall req | req in RequiredExercises ensures req in QualifiedExercises(results) {
        var r :| r in results && r.exercise == req && r.confidence > ConfidenceThreshold;
      }
    }
    if forall req :: req in RequiredExercises ==> req in QualifiedExercises(results) {
      forall req | req in RequiredExercises
        ensures exists r :: r in results && r.exercise == req && r.confidence > ConfidenceThreshold
      {
        assert req in QualifiedExercises(results);
      }
    }
  }

  /** The order of the uploads does not matter. */
  lemma EligibleIgnoresOrder(a: seq<VideoResult>, b: seq<VideoResult>)
    requires multiset(a) == multiset(b)
    ensures Eligible(a) == Eligible(b)
  {
    forall r ensures r in a <==> r in b {
      assert r in a <==> r in multiset(a);
      assert r in b <==> r in multiset(b);
    }
  }

  /** More uploads never revoke eligibility. */
  lemma EligibleMonotone(a: seq<VideoResult>, b: seq<VideoResult>)
    requires Eligible(a)
    ensures Eligible(a + b)
  {
    forall req | req in RequiredExercises
      ensures exists r :: r in a + b && r.exercise == req && r.confidence > ConfidenceThreshold
    {
      var r :| r in a && r.exercise == req && r.confidence > ConfidenceThreshold;
      assert r in a + b;
    }
  }

  /** A result for an exercise outside the required three, or with confidence
      at or below 0.7 (0.7 itself included), never changes the verdict. */
  lemma EligibleIgnoresNonQualifying(results: seq<VideoResult>, extra: VideoResult)
    requires extra.exercise !in RequiredExercises || extra.confidence <= ConfidenceThreshold
    ensures Eligible(results + [extra]) == Eligible(results)
  {
    if Eligible(results) {
      EligibleMonotone(results, [extra]);
    }
    if Eligible(results + [extra]) {
      forall req | req in RequiredExercises
        ensures exists r :: r in results && r.exercise == req && r.confidence > ConfidenceThreshold
      {
        var r :| r in results + [extra] && r.exercise == req && r.confidence > ConfidenceThreshold;
        assert r != extra;
      }
    }
  }

  /** A batch with all three required exercises above the threshold is eligible. */
  lemma QualifyingBatchIsEligible()
    ensures Eligible([VideoResult("a", "Push-ups", 0.9), VideoResult("b", "Squats", 0.75), VideoResult("c", "Jumping Jacks", 0.8)])
  {
    var a := [VideoResult("a", "Push-ups", 0.9), VideoResult("b", "Squats", 0.75), VideoResult("c", "Jumping Jacks", 0.8)];
    assert a[0] in a && a[1] in a && a[2] in a;
  }

  /** One required exercise below the threshold spoils the batch. */
  lemma LowConfidenceIsNotEligible()
    ensures !Eligible([VideoResult("a", "Push-ups", 0.6), VideoResult("b", "Squats", 0.9), VideoResult("c", "Jumping Jacks", 0.9)])
  {
    var b := [VideoResult("a", "Push-ups", 0.6), VideoResult("b", "Squats", 0.9), VideoResult("c", "Jumping Jacks", 0.9)];
    assert "Push-ups" in RequiredExercises;
    assert forall r :: r in b ==> r == b[0] || r == b[1] || r == b[2];
  }

  /** A batch missing a required exercise is not eligible, however confident the rest. */
  lemma MissingExerciseIsNotEligible()
    ensures !Eligible([VideoResult("a", "Push-ups", 0.9), VideoResult("b", "Squats", 0.9), VideoResult("c", "Pull-ups", 0.99)])
  {
    var c := [VideoResult("a", "Push-ups", 0.9), VideoResult("b", "Squats", 0.9), VideoResult("c", "Pull-ups", 0.99)];
    assert "Jumping Jacks" in RequiredExercises;
    assert forall r :: r in c ==> r == c[0] || r == c[1] || r == c[2];
  }
}
