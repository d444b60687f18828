/** The sleep-state latch of `VideoStreamHandler` (`_handle_eyes_closed`,
    `_handle_eyes_open`, `determine_sleep_status`): one optional timestamp,
    the time the current eye closure began, updated once per processed frame. */
module SleepLatch {
  import opened Wrappers

  /** The sleep status published for a frame. `Unknown` is only ever the
      sentinel of a frame that could not be analysed. */
  datatype SleepStatus = Awake | PossiblyAsleep | Asleep | Unknown {
    /** The exact string the program publishes. */
    function Name(): string {
      match this
      case Awake => "Awake"
      case PossiblyAsleep => "Possibly Asleep"
      case Asleep => "Asleep"
      case Unknown => "Unknown"
    }
  }

  /** Distinct statuses are published as distinct strings, so a published
      status string names exactly one status. */
  lemma NamesDistinct(s: SleepStatus, t: SleepStatus)
    ensures s.Name() == t.Name() <==> s == t
  {
  }

  /** Seconds of continuous closure after which a closed frame is `Asleep`. */
  const AsleepAfter: real := 5.0

  /** Seconds of closure after which reopening the eyes counts as waking up. */
  const AwakeAfter: real := 10.0

  /** Emotion-based sleep probability above which open eyes are still
      `Possibly Asleep`. */
  const ProbabilityCutoff: real := 0.7

  /** `eye_closed_start`: when the current closure began, if the eyes are
      closed; `None` when they were open at the last processed frame. */
  type Latch = Option<real>

  /** The latch after a frame together with the status reported for it. */
  datatype Step = Step(latch: Latch, status: SleepStatus)

  /** The fallback for open eyes: the emotion-based probability decides. */
  function ProbabilityRule(prob: real): (s: SleepStatus)
    ensures s == PossiblyAsleep <==> prob > ProbabilityCutoff
    ensures s == Awake <==> prob <= ProbabilityCutoff
  {
    if prob > ProbabilityCutoff then PossiblyAsleep else Awake
  }

  /** `_handle_eyes_closed`: the first closed frame starts the clock and is
      only `Possibly Asleep`; later closed frames keep the start time and are
      `Asleep` once the closure has lasted at least five seconds. */
  function HandleEyesClosed(latch: Latch, now: real): (r: Step)
    ensures r.latch.Some?
    ensures latch.Some? ==> r.latch == latch
    ensures latch.None? ==> r.latch == Some(now) && r.status == PossiblyAsleep
    ensures r.status == Asleep <==> latch.Some? && now - latch.value >= AsleepAfter
    ensures r.status == Asleep || r.status == PossiblyAsleep
  {
    if latch.None? then Step(Some(now), PossiblyAsleep)
    else
      var closedDuration := now - latch.value;
      if closedDuration >= AsleepAfter then Step(latch, Asleep)
      else Step(latch, PossiblyAsleep)
  }

  /** `_handle_eyes_open`: reopening the eyes clears the latch; a closure of
      at least ten seconds that just ended counts as waking up (`Awake`,
      whatever the probability); otherwise the probability rule decides. */
  function HandleEyesOpen(latch: Latch, now: real, prob: real): (r: Step)
    ensures r.latch.None?
    ensures r.status == Awake || r.status == PossiblyAsleep
    ensures latch.Some? && now - latch.value >= AwakeAfter ==> r.status == Awake
    ensures !(latch.Some? && now - latch.value >= AwakeAfter) ==>
              (r.status == PossiblyAsleep <==> prob > ProbabilityCutoff)
  {
    if latch.Some? && now - latch.value >= AwakeAfter then Step(None, Awake)
    else Step(None, ProbabilityRule(prob))
  }

  /** `determine_sleep_status` once the eye state is known: dispatch on it.
      The latch is set after the frame exactly when the eyes were closed, and
      `Asleep` is reported only for closed eyes. */
  function DetermineSleepStatus(latch: Latch, eyesClosed: bool, prob: real, now: real): (r: Step)
    ensures r.latch.Some? <==> eyesClosed
    ensures r.status != Unknown
    ensures r.status == Asleep ==> eyesClosed
    ensures eyesClosed && latch.Some? ==> r.latch == latch
  {
    if eyesClosed then HandleEyesClosed(latch, now) else HandleEyesOpen(latch, now, prob)
  }

  /** Once a closed frame is `Asleep`, every later closed frame (at a time
      no earlier) is `Asleep` too, since the start time is kept. */
  lemma StaysAsleep(latch: Latch, now: real, later: real)
    requires HandleEyesClosed(latch, now).status == Asleep
    requires now <= later
    ensures HandleEyesClosed(HandleEyesClosed(latch, now).latch, later).status == Asleep
  {
  }
}
