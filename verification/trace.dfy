/** The latch seen over a whole session: a run of processed frames fed
    through `DetermineSleepStatus` from the initial empty latch, and a
    description of the latch and of each status in terms of that history. */
module LatchTrace {
  import opened Wrappers
  import opened SleepLatch

  /** What the latch sees of one processed frame. */
  datatype Observation = Observation(eyesClosed: bool, prob: real, now: real)

  /** The latch after feeding the frames of `trace`, in order, to the latch
      `start`. */
  function Replay(start: Latch, trace: seq<Observation>): Latch {
    if |trace| == 0 then start
    else
      var last := trace[|trace| - 1];
      DetermineSleepStatus(Replay(start, trace[..|trace| - 1]), last.eyesClosed, last.prob, last.now).latch
  }

  /** The number of closed-eye frames at the end of `trace`. */
  function ClosedRun(trace: seq<Observation>): (k: nat)
    ensures k <= |trace|
    ensures forall i :: |trace| - k <= i < |trace| ==> trace[i].eyesClosed
    ensures k < |trace| ==> !trace[|trace| - k - 1].eyesClosed
  {
    if |trace| == 0 || !trace[|trace| - 1].eyesClosed then 0
    else 1 + ClosedRun(trace[..|trace| - 1])
  }

  /** When the closure `trace` ends in began: the time of the first frame of
      its final run of closed-eye frames, or `None` if it ends with open eyes
      (or is empty). */
  function ClosureStart(trace: seq<Observation>): Latch {
    var k := ClosedRun(trace);
    if k == 0 then None else Some(trace[|trace| - k].now)
  }

  /** The latch only remembers the start of the current closure: after any
      session it holds the time of the first frame of the final closed run. */
  lemma {:induction false} ReplayTracksClosure(trace: seq<Observation>)
    ensures Replay(None, trace) == ClosureStart(trace)
  {
    if |trace| > 0 {
      var front := trace[..|trace| - 1];
      ReplayTracksClosure(front);
      if trace[|trace| - 1].eyesClosed {
        assert ClosedRun(trace) == 1 + ClosedRun(front);
      }
    }
  }

  /** The status the rules give frame `o` after the session `trace`, told
      from the history alone: closed eyes are `Asleep` once the current
      closure (including `o`) has lasted five seconds; open eyes are `Awake`
      right after a closure of ten seconds or more; otherwise the
      probability decides for open eyes, and closed eyes are
      `Possibly Asleep`. */
  function ExpectedStatus(trace: seq<Observation>, o: Observation): SleepStatus {
    var since := ClosureStart(trace);
    if o.eyesClosed then
      if since.Some? && o.now - since.value >= AsleepAfter then Asleep else PossiblyAsleep
    else if since.Some? && o.now - since.value >= AwakeAfter then Awake
    else ProbabilityRule(o.prob)
  }

  /** Every status the latch reports is the one the history calls for. */
  lemma StatusFollowsHistory(trace: seq<Observation>, o: Observation)
    ensures DetermineSleepStatus(Replay(None, trace), o.eyesClosed, o.prob, o.now).status
            == ExpectedStatus(trace, o)
  {
    ReplayTracksClosure(trace);
  }

  /** A session that ends with the closed run `run` after a prefix that is
      empty or ends with open eyes: the current closure began at `run[0]`. */
  lemma {:induction false} ClosureStartOfRun(prefix: seq<Observation>, run: seq<Observation>)
    requires |run| > 0
    requires forall i :: 0 <= i < |run| ==> run[i].eyesClosed
    requires prefix == [] || !prefix[|prefix| - 1].eyesClosed
    ensures ClosureStart(prefix + run) == Some(run[0].now)
    ensures ClosedRun(prefix + run) == |run|
  {
    var trace := prefix + run;
    if |run| == 1 {
      assert trace[..|trace| - 1] == prefix;
    } else {
      var shorter := run[..|run| - 1];
      assert trace[..|trace| - 1] == prefix + shorter;
      ClosureStartOfRun(prefix, shorter);
    }
  }

  /** Continuous closure: after the eyes closed at `run[0]` and stayed
      closed, a further closed frame is `Asleep` exactly when at least five
      seconds have passed since `run[0]`, and `Possibly Asleep` before. */
  lemma ContinuousClosure(prefix: seq<Observation>, run: seq<Observation>, o: Observation)
    requires |run| > 0
    requires forall i :: 0 <= i < |run| ==> run[i].eyesClosed
    requires prefix == [] || !prefix[|prefix| - 1].eyesClosed
    requires o.eyesClosed
    ensures var status := DetermineSleepStatus(Replay(None, prefix + run), true, o.prob, o.now).status;
            && (status == Asleep <==> o.now - run[0].now >= AsleepAfter)
            && (status == PossiblyAsleep <==> o.now - run[0].now < AsleepAfter)
  {
    ClosureStartOfRun(prefix, run);
    StatusFollowsHistory(prefix + run, o);
  }

  /** Opening the eyes after a closure of less than ten seconds falls back
      to the probability rule rather than reporting `Awake` outright. */
  lemma ShortClosureThenOpen(prefix: seq<Observation>, run: seq<Observation>, prob: real, now: real)
    requires |run| > 0
    requires forall i :: 0 <= i < |run| ==> run[i].eyesClosed
    requires prefix == [] || !prefix[|prefix| - 1].eyesClosed
    requires now - run[0].now < AwakeAfter
    ensures DetermineSleepStatus(Replay(None, prefix + run), false, prob, now).status == ProbabilityRule(prob)
  {
    ClosureStartOfRun(prefix, run);
    ReplayTracksClosure(prefix + run);
  }

  /** Opening the eyes after a closure of ten seconds or more reports
      `Awake`, whatever the probability. */
  lemma LongClosureThenOpen(prefix: seq<Observation>, run: seq<Observation>, prob: real, now: real)
    requires |run| > 0
    requires forall i :: 0 <= i < |run| ==> run[i].eyesClosed
    requires prefix == [] || !prefix[|prefix| - 1].eyesClosed
    requires now - run[0].now >= AwakeAfter
    ensures DetermineSleepStatus(Replay(None, prefix + run), false, prob, now).status == Awake
  {
    ClosureStartOfRun(prefix, run);
    ReplayTracksClosure(prefix + run);
  }

  /** With no closure in progress (a fresh session, or one whose last frame
      had open eyes), open eyes are judged by the probability alone. */
  lemma OpenWithoutClosure(trace: seq<Observation>, prob: real, now: real)
    requires trace == [] || !trace[|trace| - 1].eyesClosed
    ensures DetermineSleepStatus(Replay(None, trace), false, prob, now).status == ProbabilityRule(prob)
  {
    ReplayTracksClosure(trace);
  }
}
