/** The original, stateless rule of the first prototype
    (`detect_emotion_and_sleep` in the script version): the dominant emotion
    of the first face decides, with an override for a high `sad` score. */
module LegacyRule {
  import opened Wrappers
  import opened Scores
  import opened SleepLatch

  /** The exceptions this rule lets escape: `max` of an empty dictionary,
      and the lookup of a missing `sad` score. */
  datatype RuleError = ValueError | KeyError(key: string)

  const NoFaceDetected: string := "No face detected"

  /** The emotions whose dominance alone suggests drowsiness. */
  const DrowsyEmotions: seq<string> := ["sad", "neutral"]

  /** The `sad` score above which the rule suggests drowsiness whatever
      emotion dominates. */
  const SadOverride: real := 0.5

  /** The rule: no face gives `("No face detected", "Unknown")`; otherwise
      the first face's dominant emotion is reported, with `Possibly Asleep`
      when it is `sad` or `neutral` or when `sad` scores above 0.5, and
      `Awake` otherwise. It never reports `Asleep`. */
  function DetectEmotionAndSleep(faces: seq<Emotions>): (r: Result<(string, SleepStatus), RuleError>)
    ensures |faces| == 0 ==> r == Success((NoFaceDetected, Unknown))
    ensures r == Failure(ValueError) <==> |faces| > 0 && |faces[0]| == 0
    ensures r.Success? && |faces| > 0 ==>
              && Dominant(faces[0]) == Some(r.value.0)
              && (r.value.1 == PossiblyAsleep || r.value.1 == Awake)
    ensures r.Success? ==> r.value.1 != Asleep
    ensures |faces| > 0 && |faces[0]| > 0 ==>
              var dominant := Dominant(faces[0]).value;
              var scores := AsMap(faces[0]);
              && (r.Failure? <==> dominant !in DrowsyEmotions && "sad" !in scores)
              && (r.Failure? ==> r.error == KeyError("sad"))
              && (r == Success((dominant, PossiblyAsleep)) <==>
                    dominant in DrowsyEmotions || ("sad" in scores && scores["sad"] > SadOverride))
              && (r == Success((dominant, Awake)) <==>
                    dominant !in DrowsyEmotions && "sad" in scores && scores["sad"] <= SadOverride)
  {
    if |faces| == 0 then Success((NoFaceDetected, Unknown))
    else
      match Dominant(faces[0])
      case None => Failure(ValueError)
      case Some(dominant) =>
        if dominant in DrowsyEmotions then Success((dominant, PossiblyAsleep))
        else
          var scores := AsMap(faces[0]);
          if "sad" !in scores then Failure(KeyError("sad"))
          else if scores["sad"] > SadOverride then Success((dominant, PossiblyAsleep))
          else Success((dominant, Awake))
  }
}
