# Safe_Drive drowsiness core in Dafny

Safe_Drive watches a driver through a camera and publishes, for each
processed frame, a status tuple `(emotion, sleep_status, sleep_probability)`.
This project models the decision core behind that tuple:

- the pure helpers of `utils.py`:
  - `validate_frame` (frame shape check);
  - `sanitize_emotion_label` (lower-case, strip, allow-list);
  - `calculate_sleep_probability` (weighted mean of the sad, neutral, fear
    and angry scores, capped at 1.0).
- the sleep-state latch of the web handler (`app.py`, `VideoStreamHandler`).
  It keeps one optional timestamp, the start of the current eye closure:
  - closed eyes are `Possibly Asleep` and become `Asleep` after five seconds;
  - reopening after ten seconds or more is `Awake`;
  - otherwise open eyes are `Possibly Asleep` exactly when the emotion-based
    probability exceeds 0.7.
- the per-frame wrapper `detect_emotion_and_sleep` with its sentinels
  `invalid_frame`, `no_face` and `error`, and the capture loop's frame
  skipping and publishing (`run`, `process_frame`, `get_status`, the stored
  frame).
- the desktop application (`main_secure.py`, `SafeDriveApp`): its copy of
  the latch, which also records `last_eye_closed_duration`, and its capture
  loop, which ends when a selected frame cannot be displayed. The model
  proves its statuses agree with the web handler's for every input.
- the stateless rule of the first prototype (`main.py`).

Modules, one per file:

| file | module | models |
|---|---|---|
| wrappers.dfy | `Wrappers` | `Option` / `Result` |
| pytext.dfy | `PyText` | `str.lower()` and `str.strip()` |
| scores.dfy | `Scores` | the emotion dictionary as ordered items; `max(d, key=d.get)` |
| utils.dfy | `Utils` | `utils.py` helpers |
| latch.dfy | `SleepLatch` | the web handler's latch |
| trace.dfy | `LatchTrace` | the latch over a whole session |
| secure_latch.dfy | `SecureLatch` | the desktop application's latch |
| pipeline.dfy | `Pipeline` | per-frame wrapper and capture loops of both entry points |
| legacy.dfy | `LegacyRule` | the `main.py` rule |

Inputs that come from outside the program are parameters:

- the emotion detector's result (`EmotionDetection`);
- the eye-closure detector's result (`EyeDetection`);
- the clock reading `now`;
- the camera reads (`CameraRead`);
- the configured `FRAME_SKIP`.

A frame is reduced to its array shape.

## Model

| member | source | states |
|---|---|---|
| PyText.LowerChar | utils.py:65 | one character lower-cased: an ASCII capital maps to its lower-case letter, 32 code points higher; every other character is kept; no capital remains |
| PyText.Lower | utils.py:65 | `emotion.lower()` keeps the length, leaves no upper-case letter, keeps every other character in place |
| PyText.LowerOfLowered | utils.py:65 | lower-casing a string without capitals changes nothing, so lower-casing is idempotent |
| PyText.LeadingSpaces | utils.py:65 | the number of leading whitespace characters is the longest all-whitespace prefix |
| PyText.TrailingSpaces | utils.py:65 | the number of trailing whitespace characters is the longest all-whitespace suffix |
| PyText.Strip | utils.py:65 | `strip()` returns a contiguous slice that neither starts nor ends with whitespace; everything cut from either end is whitespace |
| PyText.StripOfTrimmed | utils.py:65 | stripping an already trimmed string changes nothing, so stripping is idempotent |
| Scores.PrefixMapKeys | utils.py:94 | the keys of the first n dictionary items are exactly the labels they carry |
| Scores.PrefixMapValues | utils.py:94 | each of the first n items is found in the dictionary with its own score |
| Scores.AsMapContents | utils.py:94 | the dictionary holds exactly its items, each with its score |
| Scores.PrefixMapSnoc | utils.py:94-97 | reading the next item adds a key not seen before, with its score, and nothing else |
| Scores.FirstMaxIndex | app.py:88 | `max(d, key=d.get)` picks an item of maximal score, and the first one among equals |
| Scores.Dominant | app.py:88 | the dominant emotion is a key of the dictionary whose score no other key exceeds; there is none (Python's `ValueError`) exactly when the dictionary is empty |
| Utils.SanitizeEmotionLabel | utils.py:54-71 | the result is one of the seven allowed labels or `unknown`; it is a label exactly when the lower-cased, stripped input is allowed, and then it is that canonical form |
| Utils.CanonicalLabels | utils.py:64-65 | each allowed label, and `unknown`, is its own canonical form |
| Utils.SanitizeIdempotent | utils.py:54-71 | sanitizing a sanitized label changes nothing |
| Utils.SanitizeIgnoresCase | utils.py:65 | lower-casing the input first never changes the sanitized label |
| Utils.SanitizeAcceptsExamples | tests/test_app.py:51-55 | `happy` stays `happy`, `SAD` becomes `sad` |
| Utils.SanitizeRejectsExample | tests/test_app.py:57-58 | `invalid_emotion` becomes `unknown` |
| Utils.SleepProbability | utils.py:73-102 | the probability is at most 1.0; it is 0.0 when none of sad, neutral, fear and angry is present; otherwise it is the weighted sum over the total weight, or 1.0 when that quotient exceeds 1 |
| Utils.WeightedSumAbove | utils.py:94-97 | weighted scores all at least `lo` give a weighted sum of at least `lo` times the total weight |
| Utils.WeightedSumBelow | utils.py:94-97 | weighted scores all at most `hi` give a weighted sum of at most `hi` times the total weight |
| Utils.SleepProbabilityIsMean | utils.py:73-102 | the probability is a weighted mean: it lies between the least (capped at 1.0) and the greatest weighted score present |
| Utils.SleepProbabilityInUnitRange | utils.py:80-81 | non-negative scores give a probability in [0, 1], as the docstring promises |
| Utils.SleepProbabilityIgnoresOtherKeys | utils.py:84-97 | emotions other than the four weighted ones have no influence on the probability |
| Utils.SleepProbabilityExamples | tests/test_app.py:60-70 | a dictionary scoring only `happy` gives 0.0; sad 0.6, neutral 0.3, happy 0.1 gives 0.33 / 0.7, about 0.4714 |
| Utils.SumsAfterInsert | utils.py:94-97 | inserting a weighted emotion adds its weight and score times weight to the sums; inserting any other key adds nothing |
| Utils.PrefixSumsStep | utils.py:94-97 | one more item changes the sums of the dictionary read so far by that item's weight and contribution |
| Utils.RunningSumsMatchMap | utils.py:91-97 | accumulating item by item gives the sums of the dictionary read so far |
| Utils.CalculateSleepProbability | utils.py:73-102 | the loop over the items returns exactly the weighted-mean probability of the dictionary |
| Utils.SizeZero | utils.py:48 | an array has size 0 exactly when one of its dimensions is 0 |
| Utils.ValidateFrame | utils.py:31-52 | a frame is valid exactly when it is present, has rank 3 with 3 channels, and has non-zero height and width |
| Utils.ValidateFrameExamples | tests/test_app.py:33-49 | a 480x640x3 frame is valid; a 480x640 frame, an empty array and a missing frame are not |
| SleepLatch.ProbabilityRule | app.py:132 | open eyes with no long closure are `Possibly Asleep` exactly when the probability exceeds 0.7, and `Awake` otherwise |
| SleepLatch.HandleEyesClosed | app.py:112-122 | a closed frame leaves the latch set; the first one sets it to now and is `Possibly Asleep`; later ones keep the start time; the status is `Asleep` exactly when the closure has lasted at least 5 seconds |
| SleepLatch.HandleEyesOpen | app.py:124-132 | an open frame clears the latch; a closure of 10 seconds or more gives `Awake` whatever the probability; otherwise the probability rule decides; never `Asleep` |
| SleepLatch.DetermineSleepStatus | app.py:102-110 | the latch is set after the frame exactly when the eyes were closed; `Asleep` only for closed eyes; never `Unknown` |
| SleepLatch.NamesDistinct | app.py:21-24 | the four statuses are published as four distinct strings |
| SleepLatch.StaysAsleep | app.py:114-120 | once a closed frame is `Asleep`, every later closed frame is `Asleep` too |
| LatchTrace.ClosedRun | app.py:112-132 | counts the closed-eye frames that end a session: all of them closed, the one before them open |
| LatchTrace.ReplayTracksClosure | app.py:112-132 | after any session from the initial latch, the latch holds the time of the first frame of the final closed run, or nothing when the session ends with open eyes |
| LatchTrace.StatusFollowsHistory | app.py:102-132 | every status the latch reports equals the one the rules prescribe from the session history alone |
| LatchTrace.ClosureStartOfRun | app.py:114-116 | a closed run after open eyes (or at the start) began at its first frame |
| LatchTrace.ContinuousClosure | app.py:112-122 | during continuous closure a frame is `Asleep` exactly when at least 5 seconds have passed since the eyes closed, and `Possibly Asleep` before |
| LatchTrace.ShortClosureThenOpen | app.py:124-132 | reopening after less than 10 seconds of closure falls back to the probability rule |
| LatchTrace.LongClosureThenOpen | app.py:124-130 | reopening after 10 seconds or more of closure is `Awake`, whatever the probability |
| LatchTrace.OpenWithoutClosure | app.py:126-132 | with no closure in progress, open eyes are judged by the probability alone |
| SecureLatch.HandleEyesClosed | main_secure.py:123-134 | same status and start time as the web handler; an `Asleep` frame records the closure so far as the last duration, other closed frames keep it |
| SecureLatch.HandleEyesOpen | main_secure.py:136-146 | same status and start time as the web handler; ending a closure records its length as the last duration; with no closure nothing changes; never `Asleep` |
| SecureLatch.DetermineSleepStatus | main_secure.py:104-121 | for every input the status and `eye_closed_start` agree with the web handler's latch; `Asleep` only for closed eyes |
| SecureLatch.LastDurationChangesOnlyWhenMeasured | main_secure.py:123-146 | `last_eye_closed_duration` is left alone by open frames without a closure, first closed frames and closed frames under 5 seconds |
| Pipeline.ExtractSignal | app.py:78-100 | `invalid_frame` exactly for invalid frames; `no_face` exactly when no face is found; `error` exactly when a detector raises or the first face has no scores; no other sentinel occurs; every other input yields the sanitized dominant emotion, the sleep probability and the eye state |
| Pipeline.DetectEmotionAndSleep | app.py:78-110 | a frame without signal gives its sentinel with status `Unknown` and probability 0.0 and leaves the latch untouched; otherwise the latch decides; `Unknown` appears exactly for sentinels |
| Pipeline.ReportIsWellFormed | app.py:86-96 | every published emotion is an allowed label, `unknown` or a sentinel, and every probability is at most 1 |
| Pipeline.RunStep | app.py:152-167 | each frame read is counted; one whose count is not a multiple of `FRAME_SKIP` changes nothing else; one that is replaces the latch, the published status and the stored frame |
| Pipeline.FramesRead | app.py:153-156 | counts the frames read before the first failed read, where the loop stops |
| Pipeline.Run | app.py:147-172 | one `RunStep` per read until the first failed read: the frame counter grows by exactly the number of frames read, and a session whose first read fails leaves the handler as it was |
| Pipeline.RunSkipsInert | app.py:158-167 | if no frame read is selected by the skip, the latch, the published status and the stored frame are unchanged |
| Pipeline.RunStoresLastSelected | app.py:161-167 | the stored frame is exactly the frame of the last read the skip selected, stored as it came, so a selected read without an image empties the store |
| Pipeline.NothingPublishedBeforeFirstSelected | app.py:42-55 | until the first selected read, a fresh handler serves the constructed status (`Unknown`, `Unknown`, 0.0) and no frame |
| Pipeline.EveryFrameWithoutSkip | app.py:161-167 | with `FRAME_SKIP` 1 every frame read is processed and published |
| Pipeline.SecureDetectEmotionAndSleep | main_secure.py:67-102 | sentinel frames leave the state alone; for every input the report and `eye_closed_start` equal the web handler's |
| Pipeline.UndisplayableIsInvalid | main_secure.py:77-78 | a missing or empty frame, which OpenCV cannot display, is one `validate_frame` rejects |
| Pipeline.SecureRunStep | main_secure.py:186-219 | each frame read is counted; a frame whose count is not a multiple of `FRAME_SKIP` leaves the latch alone; a selected frame is processed, then shown if it can be displayed, and otherwise the drawing raises and ends the session with nothing shown |
| Pipeline.SessionReads | main_secure.py:186-219 | a desktop session consumes the reads before the first failed read, stopping right after the first selected frame that cannot be displayed |
| Pipeline.SecureRun | main_secure.py:176-219 | one `SecureRunStep` per read until the first failed read or the first undisplayable selected frame (a key press ends the input sequence): the frame counter grows by exactly the reads consumed |
| Pipeline.DesktopShowsWhatWebPublishes | main_secure.py:186-202 | from states agreeing on `eye_closed_start` and the frame counter, one frame keeps them agreeing; the desktop application shows exactly the status tuple the web handler publishes (app.py:158-167), and a frame that ends the desktop session is one the web handler publishes as the `invalid_frame` sentinel |
| Pipeline.DesktopTracksWebLatch | main_secure.py:186-219 | over a whole desktop session, the web loop fed the reads that session consumed counts the same frames and keeps the same `eye_closed_start` |
| Pipeline.FreshSessionsAgree | main_secure.py:27-31 | both entry points, constructed fresh and fed the reads a desktop session consumes, end with the same frame count and `eye_closed_start` |
| LegacyRule.DetectEmotionAndSleep | main.py:5-28 | no face gives `No face detected` / `Unknown`; an empty score dictionary raises `ValueError`; otherwise the dominant emotion is reported, `Possibly Asleep` exactly when sad or neutral dominates or sad scores above 0.5, `Awake` otherwise; a missing `sad` score raises `KeyError` only when it must be read; never `Asleep` |

## Left out

- Flask routes, CORS, HTTP responses, threads and the two locks. A status
  tuple or frame is published atomically, so each read sees one whole
  value. That is the `Handler.status` / `Handler.frame` field.
- Camera opening (`secure_camera_capture`) and the camera's pixel data. The
  frame is reduced to its shape, and each read is a `CameraRead` parameter.
- `safe_release_resources`, `cleanup`, `initialize`, and the detectors'
  construction.
- The emotion and eye detectors (FER, dlib, `detect_eye_closure`). Their
  results, including an exception, are parameters.
- `time.time()` is the parameter `now`. Only SleepLatch.StaysAsleep
  assumes that the later clock reading is no earlier than the first
  (`now <= later`); nothing else assumes the clock is monotonic.
- `time.sleep(0.033)`: pacing only.
- The `running` flag. A stop request (`/api/stop`, app.py:259-266) calls
  `cleanup` from another thread, which clears the flag; the loop then ends
  at its next check. Such a session is `Run` over a prefix of the reads,
  so the model covers it but does not model the thread itself. Otherwise
  the loop ends at the first failed read (`Run`).
- The OpenCV overlays, `imshow`, the FPS log line and the `q` key of the
  desktop application.
  - A key press ends the loop there like a failed read would. Such a
    session is `SecureRun` over a prefix of the reads.
  - The desktop loop's `finally` clean-up and logging are not modelled;
    its exception handler is modelled only as the end of the session.
- Pipeline.SecureRunStep, Pipeline.DesktopShowsWhatWebPublishes: only a
  missing frame and a frame with no element are modelled as raising in the
  overlay and `imshow` calls. Other arrays OpenCV might refuse to draw on
  (rank above 3, unusual channel counts) are taken as shown, because the
  model reduces a frame to its shape and OpenCV's own checks are not part
  of this model.
- The base64 JPEG encoding in `get_frame_base64`. Only which frame is
  stored, or that none is, is modelled.
- Pipeline.RunStep: the published probability is not rounded to two
  decimals (`round(sleep_prob, 2)`); the unrounded value is published.
- Pipeline.RunStep, Pipeline.SecureRunStep: require `FRAME_SKIP != 0`.
  Python raises `ZeroDivisionError` for a zero skip, and the shipped
  configuration never uses 0.
- PyText.LowerChar, PyText.Lower: map only the ASCII capitals and keep
  every other character, where Python's `lower()` also lowers non-ASCII
  capitals (`É` to `é`). The sanitized label is the same either way:
  - every allowed label is ASCII lower case;
  - only two non-ASCII characters lower-case into ASCII: the Kelvin sign
    (to `k`, which no allowed label contains) and U+0130 (to `i` followed
    by a combining dot, which no allowed label contains).
- Scores are real numbers, not IEEE doubles, so the probability is exact.
  The test's `0.4714` is the rounding of the exact 0.33 / 0.7.
- Configuration loading, logging, the model-training script, the streaming
  test server and the React frontend: not part of the decision core.
