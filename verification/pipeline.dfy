/** The per-frame wrapper `detect_emotion_and_sleep` of both entry points
    and their capture loops' frame skipping: which frames reach the latch,
    which become sentinel statuses, and what gets published. */
module Pipeline {
  import opened Wrappers
  import opened Scores
  import opened Utils
  import opened SleepLatch
  import SecureLatch

  /** What the emotion detector did with a frame: raised an exception, or
      returned one emotion dictionary per face it found. */
  datatype EmotionDetection = DetectorRaised | Faces(faces: seq<Emotions>)

  /** What `detect_eye_closure` did with a frame. */
  datatype EyeDetection = EyeDetectorRaised | EyeState(closed: bool)

  /** The signals one frame yields, or the sentinel label telling why it
      yields none. */
  datatype Signal = Unavailable(reason: string) | Available(emotion: string, prob: real, eyesClosed: bool)

  /** A status tuple `(emotion, sleep_status, sleep_probability)`. */
  datatype Report = Report(emotion: string, sleepStatus: SleepStatus, probability: real)

  const InvalidFrame: string := "invalid_frame"
  const NoFace: string := "no_face"
  const DetectionError: string := "error"

  /** The non-committal status of a frame that yields no signal. */
  function Sentinel(reason: string): Report {
    Report(reason, Unknown, 0.0)
  }

  /** The part of `detect_emotion_and_sleep` before the latch: reject an
      invalid frame; run the emotion detector; with no face, report
      `no_face`; take the first face's dominant emotion (sanitized) and sleep
      probability; then read the eyes. Any exception along the way (the
      detector's, `max` of an empty dictionary, the eye detector's) becomes
      `error`. */
  function ExtractSignal(frame: Frame, detection: EmotionDetection, eyes: EyeDetection): (s: Signal)
    ensures s == Unavailable(InvalidFrame) <==> !ValidateFrame(frame)
    ensures s == Unavailable(NoFace) <==> ValidateFrame(frame) && detection == Faces([])
    ensures s == Unavailable(DetectionError) <==>
              && ValidateFrame(frame)
              && (|| detection.DetectorRaised?
                  || (detection.Faces? && |detection.faces| > 0
                      && (|detection.faces[0]| == 0 || eyes.EyeDetectorRaised?)))
    ensures s.Available? ==>
              && detection.Faces? && |detection.faces| > 0 && |detection.faces[0]| > 0
              && eyes == EyeState(s.eyesClosed)
              && s.emotion == SanitizeEmotionLabel(Dominant(detection.faces[0]).value)
              && s.prob == SleepProbability(AsMap(detection.faces[0]))
    ensures s.Unavailable? ==> s.reason in [InvalidFrame, NoFace, DetectionError]
    ensures (&& ValidateFrame(frame) && detection.Faces? && |detection.faces| > 0
             && |detection.faces[0]| > 0 && eyes.EyeState?) ==> s.Available?
  {
    if !ValidateFrame(frame) then Unavailable(InvalidFrame)
    else
      match detection
      case DetectorRaised => Unavailable(DetectionError)
      case Faces(faces) =>
        if |faces| == 0 then Unavailable(NoFace)
        else
          match Dominant(faces[0])
          case None => Unavailable(DetectionError)
          case Some(dominant) =>
            var sleepProb := SleepProbability(AsMap(faces[0]));
            match eyes
            case EyeDetectorRaised => Unavailable(DetectionError)
            case EyeState(closed) => Available(SanitizeEmotionLabel(dominant), sleepProb, closed)
  }

  // ---------------------------------------------------------------------
  // The web handler (`VideoStreamHandler`)
  // ---------------------------------------------------------------------

  /** The latch after a frame and the status tuple reported for it. */
  datatype Outcome = Outcome(latch: Latch, report: Report)

  /** `VideoStreamHandler.detect_emotion_and_sleep` at time `now`: a frame
      without a signal yields its sentinel and leaves the latch untouched; a
      frame with one drives the latch. */
  function DetectEmotionAndSleep(latch: Latch, frame: Frame, detection: EmotionDetection,
                                 eyes: EyeDetection, now: real): (r: Outcome)
    ensures var s := ExtractSignal(frame, detection, eyes);
            s.Unavailable? ==> r == Outcome(latch, Sentinel(s.reason))
    ensures var s := ExtractSignal(frame, detection, eyes);
            s.Available? ==>
              var step := DetermineSleepStatus(latch, s.eyesClosed, s.prob, now);
              r == Outcome(step.latch, Report(s.emotion, step.status, s.prob))
    ensures r.report.sleepStatus == Unknown <==> ExtractSignal(frame, detection, eyes).Unavailable?
    ensures r.report.sleepStatus == Unknown ==> r.report.probability == 0.0 && r.latch == latch
  {
    match ExtractSignal(frame, detection, eyes)
    case Unavailable(reason) => Outcome(latch, Sentinel(reason))
    case Available(emotion, prob, eyesClosed) =>
      var step := DetermineSleepStatus(latch, eyesClosed, prob, now);
      Outcome(step.latch, Report(emotion, step.status, prob))
  }

  /** Sanitized emotions and bounded probabilities: every emotion the
      handler publishes is an allowed label, `unknown` or a sentinel, and
      every probability is at most 1. */
  lemma ReportIsWellFormed(latch: Latch, frame: Frame, detection: EmotionDetection,
                           eyes: EyeDetection, now: real)
    ensures var r := DetectEmotionAndSleep(latch, frame, detection, eyes, now).report;
            && (r.emotion in AllowedEmotions || r.emotion == UnknownEmotion
                || r.emotion in [InvalidFrame, NoFace, DetectionError])
            && r.probability <= 1.0
  {
  }

  /** A frame as the capture loop gets it, with what the detectors make of
      it and the clock reading taken while it is processed. */
  datatype Capture = Capture(frame: Frame, detection: EmotionDetection, eyes: EyeDetection, now: real)

  /** The handler's state: the latch, the frame counter, and the shared
      store (the last published status tuple, and the last processed frame,
      which is `None` until a frame has been processed). */
  datatype Handler = Handler(latch: Latch, frameCount: int, status: Report, frame: Frame)

  /** The handler as constructed: empty latch, no frame, status `Unknown`
      with emotion `Unknown` and probability 0.0. */
  const InitialHandler: Handler := Handler(None, 0, Report("Unknown", Unknown, 0.0), None)

  /** One turn of `run` after a successful read: count the frame; if the
      count is a multiple of `FRAME_SKIP`, process it (`process_frame`),
      overwriting the published status, and store it as the current frame.
      A zero `FRAME_SKIP` makes Python raise, hence the precondition. */
  function RunStep(h: Handler, c: Capture, frameSkip: int): (h': Handler)
    requires frameSkip != 0
    ensures h'.frameCount == h.frameCount + 1
    ensures h'.frameCount % frameSkip != 0 ==> h' == h.(frameCount := h.frameCount + 1)
    ensures h'.frameCount % frameSkip == 0 ==>
              var out := DetectEmotionAndSleep(h.latch, c.frame, c.detection, c.eyes, c.now);
              && h'.latch == out.latch && h'.status == out.report && h'.frame == c.frame
  {
    var count := h.frameCount + 1;
    if count % frameSkip == 0 then
      var out := DetectEmotionAndSleep(h.latch, c.frame, c.detection, c.eyes, c.now);
      Handler(out.latch, count, out.report, c.frame)
    else
      h.(frameCount := count)
  }

  /** A read from the camera: a failure, which ends the loop, or a frame. */
  datatype CameraRead = ReadFailed | ReadOk(capture: Capture)

  /** The number of frames the loop gets before the first failed read. */
  function FramesRead(inputs: seq<CameraRead>): (n: nat)
    ensures n <= |inputs|
    ensures forall i :: 0 <= i < n ==> inputs[i].ReadOk?
    ensures n < |inputs| ==> inputs[n].ReadFailed?
  {
    if |inputs| == 0 || inputs[0].ReadFailed? then 0 else 1 + FramesRead(inputs[1..])
  }

  /** `run`: take inputs until the first failure, one `RunStep` each. The
      loop counts every frame it reads, and a session whose first read
      fails leaves the handler as it was. */
  function Run(h: Handler, inputs: seq<CameraRead>, frameSkip: int): (r: Handler)
    requires frameSkip != 0
    ensures r.frameCount == h.frameCount + FramesRead(inputs)
    ensures FramesRead(inputs) == 0 ==> r == h
    decreases |inputs|
  {
    if |inputs| == 0 then h
    else
      match inputs[0]
      case ReadFailed => h
      case ReadOk(c) => Run(RunStep(h, c, frameSkip), inputs[1..], frameSkip)
  }

  /** No count in `(from, from + n]` is a multiple of `frameSkip`: none of
      the next `n` frames read is processed. */
  predicate NoneSelected(from: int, n: nat, frameSkip: int)
    requires frameSkip != 0
  {
    forall k :: from < k <= from + n ==> k % frameSkip != 0
  }

  /** Skipped frames are inert: if none of the frames read is selected, the
      latch and the shared store are exactly as they were. */
  lemma {:induction false} RunSkipsInert(h: Handler, inputs: seq<CameraRead>, frameSkip: int)
    requires frameSkip != 0
    requires NoneSelected(h.frameCount, FramesRead(inputs), frameSkip)
    ensures var h' := Run(h, inputs, frameSkip);
            h'.latch == h.latch && h'.status == h.status && h'.frame == h.frame
    decreases |inputs|
  {
    if |inputs| > 0 && inputs[0].ReadOk? {
      var next := RunStep(h, inputs[0].capture, frameSkip);
      assert FramesRead(inputs[1..]) == FramesRead(inputs) - 1;
      assert (h.frameCount + 1) % frameSkip != 0;
      RunSkipsInert(next, inputs[1..], frameSkip);
    }
  }

  /** The stored frame is the frame of the last read the skip selected:
      if read `j` is selected and none after it is, the store ends up with
      exactly `j`'s frame. That frame is stored as it came, so a selected
      read without an image empties the store again. */
  lemma {:induction false} RunStoresLastSelected(h: Handler, inputs: seq<CameraRead>, frameSkip: int, j: nat)
    requires frameSkip != 0
    requires j < FramesRead(inputs)
    requires (h.frameCount + j + 1) % frameSkip == 0
    requires NoneSelected(h.frameCount + j + 1, FramesRead(inputs) - j - 1, frameSkip)
    ensures Run(h, inputs, frameSkip).frame == inputs[j].capture.frame
    decreases |inputs|
  {
    var next := RunStep(h, inputs[0].capture, frameSkip);
    assert FramesRead(inputs[1..]) == FramesRead(inputs) - 1;
    if j == 0 {
      RunSkipsInert(next, inputs[1..], frameSkip);
    } else {
      assert inputs[1..][j - 1] == inputs[j];
      RunStoresLastSelected(next, inputs[1..], frameSkip, j - 1);
    }
  }

  /** Until the first selected read, a fresh handler serves the constructed
      status (`Unknown`, probability 0.0) and no frame. */
  lemma NothingPublishedBeforeFirstSelected(inputs: seq<CameraRead>, frameSkip: int)
    requires frameSkip != 0
    requires NoneSelected(0, FramesRead(inputs), frameSkip)
    ensures Run(InitialHandler, inputs, frameSkip).frame == None
    ensures Run(InitialHandler, inputs, frameSkip).status == Report("Unknown", Unknown, 0.0)
  {
    RunSkipsInert(InitialHandler, inputs, frameSkip);
  }

  /** With `FRAME_SKIP` 1 (the default) every frame read is processed. */
  lemma EveryFrameWithoutSkip(h: Handler, c: Capture)
    ensures var h' := RunStep(h, c, 1);
            var out := DetectEmotionAndSleep(h.latch, c.frame, c.detection, c.eyes, c.now);
            h'.latch == out.latch && h'.status == out.report && h'.frame == c.frame
  {
  }

  // ---------------------------------------------------------------------
  // The desktop application (`SafeDriveApp`)
  // ---------------------------------------------------------------------

  /** The secure latch after a frame and the status tuple reported for it. */
  datatype SecureOutcome = SecureOutcome(state: SecureLatch.SecureState, report: Report)

  /** `SafeDriveApp.detect_emotion_and_sleep`: the same sentinels as the web
      handler, with the latch not consulted for them; for every input its
      report and its `eye_closed_start` are those of the web handler. */
  function SecureDetectEmotionAndSleep(s: SecureLatch.SecureState, frame: Frame, detection: EmotionDetection,
                                       eyes: EyeDetection, now: real): (r: SecureOutcome)
    ensures ExtractSignal(frame, detection, eyes).Unavailable? ==> r.state == s && r.report.probability == 0.0
    ensures var app := DetectEmotionAndSleep(s.eyeClosedStart, frame, detection, eyes, now);
            r.report == app.report && r.state.eyeClosedStart == app.latch
  {
    match ExtractSignal(frame, detection, eyes)
    case Unavailable(reason) => SecureOutcome(s, Sentinel(reason))
    case Available(emotion, prob, eyesClosed) =>
      var step := SecureLatch.DetermineSleepStatus(s, eyesClosed, prob, now);
      SecureOutcome(step.state, Report(emotion, step.status, prob))
  }

  /** The application's state: its secure latch and its frame counter. */
  datatype SafeDrive = SafeDrive(latch: SecureLatch.SecureState, frameCount: int)

  /** Whether OpenCV can draw on and display the frame: a present array
      with at least one element. Drawing the overlays on, or showing, a
      missing or empty frame raises. */
  predicate Displayable(frame: Frame) {
    frame.Some? && Size(frame.value) > 0
  }

  /** A frame OpenCV cannot display is one `validate_frame` rejects, so the
      wrapper has already turned it into the `invalid_frame` sentinel. */
  lemma UndisplayableIsInvalid(frame: Frame)
    ensures !Displayable(frame) ==> !ValidateFrame(frame)
  {
    if frame.Some? {
      SizeZero(frame.value);
    }
  }

  /** The application after one frame; the status tuple it displayed, if
      the frame was processed and shown; and whether the frame ended the
      session, by an exception while drawing or showing it. */
  datatype SafeDriveStep = SafeDriveStep(app: SafeDrive, shown: Option<Report>, ended: bool)

  /** One turn of `SafeDriveApp.run` after a successful read: count the
      frame and skip it unless the count is a multiple of `FRAME_SKIP`.
      A selected frame is processed; if it cannot be displayed, the overlay
      or `imshow` call raises and the exception handler ends the session
      with nothing shown. */
  function SecureRunStep(a: SafeDrive, c: Capture, frameSkip: int): (r: SafeDriveStep)
    requires frameSkip != 0
    ensures r.app.frameCount == a.frameCount + 1
    ensures r.shown.Some? <==> r.app.frameCount % frameSkip == 0 && Displayable(c.frame)
    ensures r.ended <==> r.app.frameCount % frameSkip == 0 && !Displayable(c.frame)
    ensures r.app.frameCount % frameSkip != 0 ==> r.app.latch == a.latch
    ensures r.app.frameCount % frameSkip == 0 ==>
              var out := SecureDetectEmotionAndSleep(a.latch, c.frame, c.detection, c.eyes, c.now);
              && r.app.latch == out.state
              && (r.shown.Some? ==> r.shown == Some(out.report))
  {
    var count := a.frameCount + 1;
    if count % frameSkip != 0 then SafeDriveStep(a.(frameCount := count), None, false)
    else
      var out := SecureDetectEmotionAndSleep(a.latch, c.frame, c.detection, c.eyes, c.now);
      if Displayable(c.frame) then SafeDriveStep(SafeDrive(out.state, count), Some(out.report), false)
      else SafeDriveStep(SafeDrive(out.state, count), None, true)
  }

  /** The application as constructed: empty latch, last duration 0, no
      frame counted. */
  const InitialSafeDrive: SafeDrive := SafeDrive(SecureLatch.Initial, 0)

  /** The number of reads a desktop session consumes, its frame counter
      standing at `count`: it stops before the first failed read, and right
      after the first selected frame that cannot be displayed. */
  function SessionReads(count: int, inputs: seq<CameraRead>, frameSkip: int): (n: nat)
    requires frameSkip != 0
    ensures n <= FramesRead(inputs)
    ensures forall i :: 0 <= i < n - 1 ==>
              (count + i + 1) % frameSkip != 0 || Displayable(inputs[i].capture.frame)
    ensures n < FramesRead(inputs) ==>
              0 < n && (count + n) % frameSkip == 0 && !Displayable(inputs[n - 1].capture.frame)
    decreases |inputs|
  {
    if |inputs| == 0 || inputs[0].ReadFailed? then 0
    else if (count + 1) % frameSkip == 0 && !Displayable(inputs[0].capture.frame) then 1
    else 1 + SessionReads(count + 1, inputs[1..], frameSkip)
  }

  /** `SafeDriveApp.run`: take inputs until the first failed read or the
      first frame that cannot be displayed (a key press ends the input
      sequence), one `SecureRunStep` each. */
  function SecureRun(a: SafeDrive, inputs: seq<CameraRead>, frameSkip: int): (r: SafeDrive)
    requires frameSkip != 0
    ensures r.frameCount == a.frameCount + SessionReads(a.frameCount, inputs, frameSkip)
    decreases |inputs|
  {
    if |inputs| == 0 then a
    else
      match inputs[0]
      case ReadFailed => a
      case ReadOk(c) =>
        var step := SecureRunStep(a, c, frameSkip);
        if step.ended then step.app else SecureRun(step.app, inputs[1..], frameSkip)
  }

  /** From states that agree on `eye_closed_start` and the frame counter,
      one frame keeps them in agreement. The desktop application shows
      exactly the status tuple the web handler publishes; a frame that ends
      the desktop session is one the web handler publishes as the
      `invalid_frame` sentinel. */
  lemma DesktopShowsWhatWebPublishes(a: SafeDrive, h: Handler, c: Capture, frameSkip: int)
    requires frameSkip != 0
    requires a.latch.eyeClosedStart == h.latch && a.frameCount == h.frameCount
    ensures var r := SecureRunStep(a, c, frameSkip);
            var h' := RunStep(h, c, frameSkip);
            && r.app.latch.eyeClosedStart == h'.latch && r.app.frameCount == h'.frameCount
            && (r.shown.Some? ==> r.shown.value == h'.status)
            && (r.ended ==> h'.status == Sentinel(InvalidFrame))
            && (r.shown.None? && !r.ended ==> h'.status == h.status)
  {
    UndisplayableIsInvalid(c.frame);
  }

  /** Over a whole desktop session, the desktop application and the web
      handler fed the reads that session consumed count the same frames and
      keep the same `eye_closed_start`. */
  lemma {:induction false} DesktopTracksWebLatch(a: SafeDrive, h: Handler, inputs: seq<CameraRead>, frameSkip: int)
    requires frameSkip != 0
    requires a.latch.eyeClosedStart == h.latch && a.frameCount == h.frameCount
    ensures var a' := SecureRun(a, inputs, frameSkip);
            var h' := Run(h, inputs[..SessionReads(a.frameCount, inputs, frameSkip)], frameSkip);
            a'.latch.eyeClosedStart == h'.latch && a'.frameCount == h'.frameCount
    decreases |inputs|
  {
    var n := SessionReads(a.frameCount, inputs, frameSkip);
    if n > 0 {
      var c := inputs[0].capture;
      var step := SecureRunStep(a, c, frameSkip);
      var next := RunStep(h, c, frameSkip);
      DesktopShowsWhatWebPublishes(a, h, c, frameSkip);
      var consumed := inputs[..n];
      assert consumed[0] == inputs[0];
      assert Run(h, consumed, frameSkip) == Run(next, consumed[1..], frameSkip);
      if step.ended {
        assert SecureRun(a, inputs, frameSkip) == step.app;
        assert consumed[1..] == [];
      } else {
        assert SecureRun(a, inputs, frameSkip) == SecureRun(step.app, inputs[1..], frameSkip);
        assert SessionReads(step.app.frameCount, inputs[1..], frameSkip) == n - 1;
        assert consumed[1..] == inputs[1..][..n - 1];
        DesktopTracksWebLatch(step.app, next, inputs[1..], frameSkip);
      }
    }
  }

  /** Both entry points, started fresh on the reads a desktop session
      consumes, end with the same frame count and `eye_closed_start`. */
  lemma FreshSessionsAgree(inputs: seq<CameraRead>, frameSkip: int)
    requires frameSkip != 0
    ensures var consumed := inputs[..SessionReads(0, inputs, frameSkip)];
            && SecureRun(InitialSafeDrive, inputs, frameSkip).latch.eyeClosedStart
               == Run(InitialHandler, consumed, frameSkip).latch
            && SecureRun(InitialSafeDrive, inputs, frameSkip).frameCount
               == Run(InitialHandler, consumed, frameSkip).frameCount
  {
    DesktopTracksWebLatch(InitialSafeDrive, InitialHandler, inputs, frameSkip);
  }
}
