/** The sleep-state latch of `SafeDriveApp`: the same rules as the web
    handler's latch, plus `last_eye_closed_duration`, the length of the most
    recent closure that was measured. */
module SecureLatch {
  import opened Wrappers
  import SleepLatch

  type SleepStatus = SleepLatch.SleepStatus

  /** `eye_closed_start` and `last_eye_closed_duration`. */
  datatype SecureState = SecureState(eyeClosedStart: Option<real>, lastClosedDuration: real)

  /** The state set up by the constructor. */
  const Initial: SecureState := SecureState(None, 0.0)

  /** The state after a frame together with the status reported for it. */
  datatype SecureStep = SecureStep(state: SecureState, status: SleepStatus)

  /** `_handle_eyes_closed`: as in the web handler; a closed frame found
      `Asleep` also records how long the closure has lasted so far. */
  function HandleEyesClosed(s: SecureState, now: real): (r: SecureStep)
    ensures var app := SleepLatch.HandleEyesClosed(s.eyeClosedStart, now);
            r.state.eyeClosedStart == app.latch && r.status == app.status
    ensures r.status == SleepLatch.Asleep ==> r.state.lastClosedDuration == now - s.eyeClosedStart.value
    ensures r.status != SleepLatch.Asleep ==> r.state.lastClosedDuration == s.lastClosedDuration
  {
    match s.eyeClosedStart
    case None => SecureStep(s.(eyeClosedStart := Some(now)), SleepLatch.PossiblyAsleep)
    case Some(start) =>
      var closedDuration := now - start;
      if closedDuration >= 5.0 then
        SecureStep(s.(lastClosedDuration := closedDuration), SleepLatch.Asleep)
      else
        SecureStep(s, SleepLatch.PossiblyAsleep)
  }

  /** `_handle_eyes_open`: as in the web handler; reopening after a closure
      records its length and clears the start before the ten-second check.
      Never reports `Asleep`. */
  function HandleEyesOpen(s: SecureState, now: real, prob: real): (r: SecureStep)
    ensures var app := SleepLatch.HandleEyesOpen(s.eyeClosedStart, now, prob);
            r.state.eyeClosedStart == app.latch && r.status == app.status
    ensures s.eyeClosedStart.Some? ==> r.state.lastClosedDuration == now - s.eyeClosedStart.value
    ensures s.eyeClosedStart.None? ==> r.state == s
    ensures r.status != SleepLatch.Asleep
  {
    match s.eyeClosedStart
    case Some(start) =>
      var closedDuration := now - start;
      var cleared := SecureState(None, closedDuration);
      if closedDuration >= 10.0 then SecureStep(cleared, SleepLatch.Awake)
      else SecureStep(cleared, if prob > 0.7 then SleepLatch.PossiblyAsleep else SleepLatch.Awake)
    case None =>
      SecureStep(s, if prob > 0.7 then SleepLatch.PossiblyAsleep else SleepLatch.Awake)
  }

  /** `determine_sleep_status` once the eye state is known. Its status and
      its update of `eye_closed_start` are those of the web handler's latch
      for every input. */
  function DetermineSleepStatus(s: SecureState, eyesClosed: bool, prob: real, now: real): (r: SecureStep)
    ensures var app := SleepLatch.DetermineSleepStatus(s.eyeClosedStart, eyesClosed, prob, now);
            r.state.eyeClosedStart == app.latch && r.status == app.status
    ensures r.status == SleepLatch.Asleep ==> eyesClosed
  {
    if eyesClosed then HandleEyesClosed(s, now) else HandleEyesOpen(s, now, prob)
  }

  /** `last_eye_closed_duration` changes only when a closure is measured: an
      `Asleep` closed frame, or an open frame ending a closure. The first
      closed frame, closed frames under five seconds and open frames with no
      closure in progress leave it alone. */
  lemma LastDurationChangesOnlyWhenMeasured(s: SecureState, eyesClosed: bool, prob: real, now: real)
    requires s.eyeClosedStart.None? || (eyesClosed && now - s.eyeClosedStart.value < SleepLatch.AsleepAfter)
    ensures DetermineSleepStatus(s, eyesClosed, prob, now).state.lastClosedDuration == s.lastClosedDuration
  {
  }
}
