# Exercise-video classification: pose features, eligibility and backend helpers

This project is a Dafny model of the deterministic core of a sports-selection
system. The system classifies short exercise videos (jumping jacks, push-ups,
pull-ups, squats, Russian twists). It turns each frame's pose skeleton into 11
joint and ground angles, assembles a fixed-length window of these angle vectors,
classifies the window and then decides whether a batch of uploads makes the
athlete eligible. The model covers:

- `PoseGeometry` (`pose_geometry.dfy`): `calculate_angle` and
  `extract_angles_from_landmarks`. `ai_service/pose_extractor.py` and
  `ai_service/app.py` hold behaviourally identical copies of this code (app.py:17-78 and
  pose_extractor.py:7-67), so it is modelled once. Landmark coordinates are
  `Float` values (a real or NaN), so the NaN-to-zero step means something.
  `atan2` is a parameter of type `Atan2Deg`: any function returning degrees in
  (-180, 180] that gives 90 for a ray pointing straight along +y.
- `VideoFrames` (`video_frames.dfy`): the frame source, the raw window, and
  the frame-reading loop that both `extract_pose_angle_sequence` functions
  share (app.py:80-104 and pose_extractor.py:81-103 hold the same two loops),
  modelled once as `ReadAngleRows`. A video is the sequence of its decoded frames. Each
  frame carries its pixel size and the detector's answer (`Option` of 33
  landmarks).
- `PoseExtractor` (`pose_extractor.dfy`): the offline builder of
  pose_extractor.py, with `normalize_angles` and `smooth_angles`.
  `np.convolve(..., mode='same')` is modelled as a full discrete convolution
  followed by the centred slice. For the width-3 box kernel it is proved equal
  to the three-point average in which a missing neighbour counts as zero.
- `ServingApp` (`serving_app.dfy`): `process_video` of app.py, which hands
  the raw rows to the classifier without normalisation or smoothing and takes
  the argmax; and the validation, per-upload loop and all/any eligibility rule
  of `upload_multiple_videos`. The trained model is a parameter of type
  `Classifier`: it returns one probability in [0, 1] for each of the 5 labels.
- `TrainWindows` (`train_windows.dfy`): the feature-column filter and the
  windowing loop of `ai_service/train.py`. The loop cuts the table into
  disjoint 30-row windows, each labelled by its first row.
- `StableJson` (`stable_json.dfy`): `stableStringify` of `index.js`, with the
  key sort written out as an insertion sort. The sorted order is unique, so
  which sorting algorithm is used makes no difference.
- `Backend` (`backend.dfy`): `addPlausibilityFlags`, and `verifyHmac` as a
  method that updates a `Request` object.

Two behaviours of the code a reader may not expect:
- Smoothing does not keep a constant sequence fixed. The interior frames keep
  the value, but the two edge frames become 2/3 of it
  (`SmoothedConstantChannel`).
- The left ankle-to-ground angle is always 0 (`AnkleGroundAlwaysZero`).

## Model

| member | source | states |
|---|---|---|
| PoseGeometry.CalculateAngle | ai_service/pose_extractor.py:27-35 | the angle at the vertex is in [0, 180] whenever it is defined, and it is NaN exactly when some coordinate is NaN |
| PoseGeometry.AngleIsMinorArc | ai_service/app.py:37-46 | for finite points, folding a bearing difference d above 180 to 360 - d gives the minor arc min(\|d\|, 360 - \|d\|), and \|d\| < 360 |
| PoseGeometry.AngleSymmetric | ai_service/pose_extractor.py:31-32 | swapping the two ray endpoints a and c does not change the angle |
| PoseGeometry.RawAngles | ai_service/pose_extractor.py:37-62 | the raw angle vector has 11 entries, each NaN or in [0, 180] |
| PoseGeometry.FinitePoseGivesNoNaN | ai_service/pose_extractor.py:27-62 | a pose whose landmark coordinates are all finite gives no NaN angle, so the NaN-to-zero step only acts on poses with NaN coordinates |
| PoseGeometry.ScrubNaN | ai_service/pose_extractor.py:64-65 | the length is kept, NaN entries become 0 and every other entry is unchanged |
| PoseGeometry.ExtractAngles | ai_service/pose_extractor.py:7-67 | the angle vector has exactly 11 entries, each in [0, 180] and never NaN, for every pose, including poses with NaN coordinates |
| PoseGeometry.AnkleGroundAlwaysZero | ai_service/pose_extractor.py:43 | entry 6 (left ankle to ground) is 0 for every pose, because both of its rays point straight down from a vertex one pixel above the ankle |
| PoseGeometry.RightSideMirrorsLeft | ai_service/pose_extractor.py:37-62 | entries 7-10 (right knee, ankle, shoulder-ground, elbow-ground) equal entries 0-3 of the left/right-mirrored pose; the left hip-, knee- and ankle-to-ground entries have no right-side counterpart |
| PoseGeometry.WristsIgnored | ai_service/pose_extractor.py:13-25 | two poses that differ only at the wrists give the same angle vector |
| VideoFrames.FrameAngles | ai_service/pose_extractor.py:92-96 | a frame's row has 11 entries in [0, 180], and it is the zero sentinel when no pose was detected |
| VideoFrames.RawWindow | ai_service/app.py:86-104 | the window has exactly n rows, each 11 wide with entries in [0, 180] |
| VideoFrames.ReadAngleRows | ai_service/app.py:80-104 | reads exactly min(\|video\|, n) frames; row i is frame i's angle vector, or zeros if no pose was found in it; rows after the video are zero padding (the serving builder returns these rows as they are) |
| VideoFrames.RawWindowReadsOnlyPrefix | ai_service/pose_extractor.py:86-89 | frames after the first n never influence the window |
| VideoFrames.RawWindowWithoutPoses | ai_service/pose_extractor.py:95-103 | a video without a detected pose in any frame gives an all-zero window, padding included |
| PoseExtractor.NormalizeAngles | ai_service/pose_extractor.py:69-73 | normalisation keeps the number of frames and the width of every row |
| PoseExtractor.NormalizeIntoUnitRange | ai_service/pose_extractor.py:70-72 | entries in [0, 180] degrees map into [0, 1] |
| PoseExtractor.NormalizeInvertible | ai_service/pose_extractor.py:72 | multiplying the normalised entries back by 180 recovers the input, so normalisation is exactly a division by 180 |
| PoseExtractor.ConvolveSame | ai_service/pose_extractor.py:78 | the 'same' convolution keeps the length of the signal (its value for the box kernel is given by ConvolveSameBox3) |
| PoseExtractor.ConvolveSameBox3 | ai_service/pose_extractor.py:78 | the 'same' convolution with the width-3 box kernel is (x[i-1] + x[i] + x[i+1]) / 3, where a neighbour outside the sequence counts as 0 |
| PoseExtractor.SmoothAngles | ai_service/pose_extractor.py:75-79 | copying the array and overwriting each channel with its convolution gives the channel-wise smoothed array |
| PoseExtractor.Smoothed | ai_service/pose_extractor.py:76-78 | smoothing keeps the number of frames and the width of every row (its entries are given by SmoothedBox3At) |
| PoseExtractor.SmoothedBox3At | ai_service/pose_extractor.py:76-78 | smoothed entry (t, c) is the three-point average of channel c around frame t, with 0 outside |
| PoseExtractor.SmoothedBox3Shape | ai_service/pose_extractor.py:78 | interior frames get (x[t-1] + x[t] + x[t+1]) / 3; the edges get (x[0] + x[1]) / 3 and (x[n-2] + x[n-1]) / 3 |
| PoseExtractor.SmoothedConstantChannel | ai_service/pose_extractor.py:78 | a constant channel keeps its value on interior frames, and its two edge frames become 2/3 of it |
| PoseExtractor.SmoothedStaysInUnitRange | ai_service/pose_extractor.py:78 | entries in [0, 1] stay in [0, 1] after smoothing |
| PoseExtractor.SmoothedZeros | ai_service/pose_extractor.py:78 | zeros stay zeros |
| PoseExtractor.SmoothedChannelsIndependent | ai_service/pose_extractor.py:77-78 | output channel c depends only on input channel c |
| PoseExtractor.ExtractPoseAngleSequence | ai_service/pose_extractor.py:81-107 | reads exactly min(\|video\|, seqLength) frames; the result is the smoothed normalisation of the raw window of those frames (normalisation first); it fails exactly when the window is shorter than the smoothing width 3 |
| PoseExtractor.PipelineInUnitRange | ai_service/pose_extractor.py:105-107 | every entry of a successful result is in [0, 1] |
| PoseExtractor.PipelineWithoutPoses | ai_service/pose_extractor.py:92-106 | a video with no detections at all gives an all-zero result |
| ServingApp.ArgMax | ai_service/app.py:116 | returns the first index of the maximum: every entry is at most the one there, and every earlier entry is strictly smaller |
| ServingApp.ArgMaxUnique | ai_service/app.py:116 | an index with both argmax properties is the one ArgMax returns |
| ServingApp.Predict | ai_service/app.py:115-121 | the label is the label at the first index of the maximum, and the confidence is the probability there, which no other probability exceeds |
| ServingApp.PredictConfidenceIsProbability | ai_service/app.py:115-117 | the reported confidence is in [0, 1] |
| ServingApp.ProcessVideo | ai_service/app.py:106-121 | the prediction is the classification of the raw 30-frame window of the video |
| ServingApp.UploadMultipleVideos | ai_service/app.py:123-149 | a missing field or an empty list is rejected with its 400 message before any video is processed; otherwise there is one result per upload, in upload order, with that upload's filename, and the report says eligible exactly when the batch is eligible |
| ServingApp.EligibleIffRequiredQualified | ai_service/app.py:141-142 | the batch is eligible exactly when each of Push-ups, Squats and Jumping Jacks has a result with confidence strictly above 0.7 |
| ServingApp.ResultFor | ai_service/app.py:134-139 | the result for an upload keeps its filename, names one of the 5 labels, and has a confidence in [0, 1] |
| ServingApp.EligibleNeedsThreeResults | ai_service/app.py:141-142 | an eligible batch holds at least 3 results, one for each required exercise |
| ServingApp.EligibleIgnoresOrder | ai_service/app.py:142 | the verdict does not depend on the order of the uploads |
| ServingApp.EligibleMonotone | ai_service/app.py:142 | adding uploads never revokes eligibility |
| ServingApp.EligibleIgnoresNonQualifying | ai_service/app.py:141-142 | a result for a label outside the required three, or with confidence at or below 0.7 (0.7 itself included), never changes the verdict |
| ServingApp.QualifyingBatchIsEligible | ai_service/app.py:141-144 | push-ups 0.9, squats 0.75 and jumping jacks 0.8 make an eligible batch |
| ServingApp.LowConfidenceIsNotEligible | ai_service/app.py:141-144 | push-ups at 0.6 make the batch ineligible, even with squats and jumping jacks at 0.9 |
| ServingApp.MissingExerciseIsNotEligible | ai_service/app.py:141-144 | a batch with no jumping-jacks result is ineligible, even with a confident pull-ups result |
| TrainWindows.FeatureColumns | ai_service/train.py:15-16 | there are never more feature columns than columns (which ones they are, and their order, are the two lemmas below) |
| TrainWindows.FeatureColumnsMembership | ai_service/train.py:15-16 | a column is a feature column exactly when it is a column of the table and is neither Label nor side |
| TrainWindows.FeatureColumnsKeepOrder | ai_service/train.py:16 | filtering commutes with concatenation, so the feature columns keep their original order |
| TrainWindows.ToNumber | ai_service/train.py:24-27 | numeric cells are kept, and empty or non-numeric cells become 0 |
| TrainWindows.MakeWindows | ai_service/train.py:20-30 | there are \|rows\| div 30 windows and as many labels; window w holds rows 30w to 30w+29, and its label is the Label of row 30w |
| TrainWindows.RowLiesInOneWindow | ai_service/train.py:23-24 | every row before the dropped tail sits in window j div 30 at offset j mod 30 |
| TrainWindows.TrailingRowsDropped | ai_service/train.py:23 | fewer than 30 rows are dropped, and removing them changes neither the windows nor the labels |
| TrainWindows.LabelFromFirstRowOnly | ai_service/train.py:28 | the Label cells of rows other than a window's first row never affect the labels |
| StableJson.Stringify | index.js:39-44 | an array encodes as a string that starts with '[' and ends with ']', and an object as one that starts with '{' and ends with '}' (the full shapes are ArrayEncoding and ObjectEncoding) |
| StableJson.SortKeys | index.js:42 | the sorted keys have the same length and the same elements as the keys, and they are strictly ascending when the keys are distinct |
| StableJson.SortKeysIsPermutation | index.js:42 | sorting is a permutation: every key occurs as often in the result as in the input |
| StableJson.StrictlySortedUnique | index.js:42 | two ascending key lists with the same elements are equal, so the key order does not depend on insertion order |
| StableJson.Get | index.js:43 | obj[k] is a member of the object with key k |
| StableJson.ArrayEncoding | index.js:41 | an array is '[' + its elements' encodings in original order joined by ',' + ']'; the empty array gives "[]" |
| StableJson.ObjectEncoding | index.js:43 | an object is '{' + for each sorted key, JSON.stringify(key) + ':' + the encoding of its value, joined by ',' + '}'; the empty object gives "{}" |
| StableJson.ObjectKeysAscending | index.js:42 | an object's keys are emitted in strictly ascending order, each exactly once |
| StableJson.InsertionOrderIrrelevant | index.js:39-44 | two objects with the same key/value pairs serialise identically, whatever their insertion order (at the top level; SameValueSameEncoding covers every depth) |
| StableJson.SameValueSameSortedKeys | index.js:42 | two objects that are the same value up to member order have the same sorted key list |
| StableJson.SameValueSameEncoding | index.js:39-44 | two JSON values that differ only in the insertion order of object members, at any depth of nesting, serialise identically |
| StableJson.NestedReorderingIrrelevant | index.js:43 | {"k":{"x":null,"y":null}} and {"k":{"y":null,"x":null}} serialise identically: the sort applies to nested objects too |
| Backend.AddPlausibilityFlags | index.js:67-81 | each flag is pushed exactly when its test type matches and its metric is truthy and past its limit (top speed > 15, reaction time < 0.03, jump height > 120, flight time > 1.2, reps > 500); other test types give no flags; at most two flags, no repeats, and in source order |
| Backend.Secret | index.js:53 | the secret is the environment value when it is set, and "" otherwise |
| Backend.TimingSafeEqual | index.js:58 | throws exactly when the two UTF-8 buffers differ in length, and otherwise is true exactly when the strings are equal |
| Backend.VerifyHmac | index.js:47-64 | signature_valid is set to true exactly when the header is present, is non-empty and equals the HMAC of the stable serialisation of the body; a missing header, a mismatch or an exception gives false; next() is called exactly once |

## Left out

- Video decoding (`cv2.VideoCapture`, colour conversion) and MediaPipe pose detection: a video is the sequence of its frames, each with the detector's answer. Releasing the capture and detector handles is not modelled.
- `atan2`, π and float32/float64 rounding: reals replace floats. NaN is modelled; the infinities are not. `atan2` is a parameter constrained only by its range and by its value on the +y axis.
- PoseGeometry.AngleIsMinorArc: three collinear points are not proved to give 180, because the bearing parameter is not constrained enough to fix the bearing of opposite rays.
- Keras `load_model`/`predict`, the LSTM, `fit`, `LabelEncoder`, `train_test_split` and `classification_report`: the classifier is a function parameter returning 5 probabilities.
- Temporary-file creation and deletion in `process_video`, Flask routing and JSON responses: a response is `Rejected` (status 400) or `Report`.
- PoseExtractor.ExtractPoseAngleSequence: numpy raises for windows shorter than 3 frames; the model returns one `Err` for all of these rather than distinguishing the IndexError from the ValueError.
- PoseExtractor.SmoothAngles: requires a rectangular array with at least `windowSize` frames; for fewer frames numpy raises, and this error is modelled only in the builder.
- TrainWindows.MakeWindows: requires a Label column, although pandas would raise only once a window exists. CSV reading is not modelled: text cells count as non-numeric even when pandas would parse them.
- The CSV path, the printing in train.py and everything after the windowing loop.
- SHA-256 HMAC: a function parameter of the secret and the payload, where `None` stands for a thrown exception. `JSON.stringify` on strings and numbers is also a parameter (`Encoders`).
- StableJson.SortKeys: compares keys by Unicode scalar value. JavaScript compares UTF-16 code units, which orders characters above U+FFFF differently from U+E000-U+FFFF.
- StableJson.SameValueSameEncoding: "the same value" is defined only for objects whose keys are distinct at every depth, as the objects of a parsed request body are.
- StableJson.Stringify: values that are not JSON (undefined, functions, Dates) are not modelled, since the input is a parsed request body.
- Backend.AddPlausibilityFlags: metric values are numbers or absent. String or boolean metrics, and JavaScript's coercion of them in comparisons, are not modelled.
- Express routes, multer storage, Firestore and Storage writes, signed URLs and the Python child process in index.js.
- ai_service/pose_visualize.py (a display loop), ai_service/inference.py and ai_service/pose_test.py (scripts that call the modelled extractor and repeat the argmax), and ai_service/test_upload.py (an HTTP client).
