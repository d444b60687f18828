/** The pure helpers of the detection pipeline: emotion-label sanitizing,
    the emotion-based sleep probability and the frame-shape check. */
module Utils {
  import opened Wrappers
  import opened PyText
  import opened Scores

  // ---------------------------------------------------------------------
  // Emotion labels
  // ---------------------------------------------------------------------

  /** The seven labels the emotion classifier may name. */
  const AllowedEmotions: seq<string> :=
    ["angry", "disgust", "fear", "happy", "sad", "surprise", "neutral"]

  /** What the sanitizer answers for anything outside the allowed set. */
  const UnknownEmotion: string := "unknown"

  /** The canonical form of a raw label: lower-cased, then stripped. */
  function Canonical(emotion: string): string {
    Strip(Lower(emotion))
  }

  /** Normalises a raw label and keeps it only if it is one of the seven
      allowed emotions; anything else becomes `unknown`. Never fails. */
  function SanitizeEmotionLabel(emotion: string): (r: string)
    ensures r in AllowedEmotions || r == UnknownEmotion
    ensures r != UnknownEmotion <==> Canonical(emotion) in AllowedEmotions
    ensures r in AllowedEmotions ==> r == Canonical(emotion)
  {
    var e := Canonical(emotion);
    if e in AllowedEmotions then e else UnknownEmotion
  }

  /** Every allowed label, and `unknown`, is its own canonical form. */
  lemma CanonicalLabels(s: string)
    requires s in AllowedEmotions || s == UnknownEmotion
    ensures Canonical(s) == s
  {
    assert NoUpper(s) && Trimmed(s);
    LowerOfLowered(s);
    StripOfTrimmed(s);
  }

  /** Sanitizing an already sanitized label changes nothing. */
  lemma SanitizeIdempotent(emotion: string)
    ensures SanitizeEmotionLabel(SanitizeEmotionLabel(emotion)) == SanitizeEmotionLabel(emotion)
  {
    CanonicalLabels(SanitizeEmotionLabel(emotion));
  }

  /** The sanitizer does not distinguish upper from lower case. */
  lemma SanitizeIgnoresCase(emotion: string)
    ensures SanitizeEmotionLabel(Lower(emotion)) == SanitizeEmotionLabel(emotion)
  {
    LowerOfLowered(Lower(emotion));
  }

  /** The sanitizer keeps `happy` and turns `SAD` into `sad`. */
  lemma SanitizeAcceptsExamples()
    ensures SanitizeEmotionLabel("happy") == "happy"
    ensures SanitizeEmotionLabel("SAD") == "sad"
  {
    CanonicalLabels("happy");
    var sad := Lower("SAD");
    assert sad[0] == 's';
    assert sad == "sad";
    assert Trimmed("sad");
    StripOfTrimmed("sad");
    assert Canonical("SAD") == "sad";
  }

  /** The sanitizer turns `invalid_emotion` into `unknown`. */
  lemma SanitizeRejectsExample()
    ensures SanitizeEmotionLabel("invalid_emotion") == UnknownEmotion
  {
    var bad := "invalid_emotion";
    assert NoUpper(bad);
    assert Trimmed(bad);
    LowerOfLowered(bad);
    StripOfTrimmed(bad);
    assert Canonical(bad) == bad;
  }

  // ---------------------------------------------------------------------
  // Sleep probability
  // ---------------------------------------------------------------------

  /** The emotions that indicate drowsiness, with their weights. */
  const SleepWeights: map<string, real> :=
    map["sad" := 0.4, "neutral" := 0.3, "fear" := 0.2, "angry" := 0.1]

  /** The score of `key` in `m`, 0.0 when it is absent. */
  function ScoreIn(m: map<string, real>, key: string): real {
    if key in m then m[key] else 0.0
  }

  /** What one dictionary item adds to the weighted sum: score times
      weight for a weighted emotion, nothing for any other. */
  function Contribution(e: string, score: real): real {
    if e in SleepWeights then score * SleepWeights[e] else 0.0
  }

  /** What one dictionary item adds to the total weight. */
  function WeightOf(e: string): real {
    if e in SleepWeights then SleepWeights[e] else 0.0
  }

  /** The sum of the weights of the weighted emotions present in `m`
      (the entries of `SleepWeights`, written out). */
  function TotalWeight(m: map<string, real>): real {
    (if "sad" in m then 0.4 else 0.0) + (if "neutral" in m then 0.3 else 0.0)
      + (if "fear" in m then 0.2 else 0.0) + (if "angry" in m then 0.1 else 0.0)
  }

  /** The sum of score times weight over the weighted emotions present in
      `m` (an absent emotion scores 0.0). */
  function WeightedSum(m: map<string, real>): real {
    ScoreIn(m, "sad") * 0.4 + ScoreIn(m, "neutral") * 0.3
      + ScoreIn(m, "fear") * 0.2 + ScoreIn(m, "angry") * 0.1
  }

  predicate HasWeightedEmotion(m: map<string, real>) {
    "sad" in m || "neutral" in m || "fear" in m || "angry" in m
  }

  /** Every weighted emotion present in `m` scores at least `lo`. */
  predicate WeightedScoresAbove(m: map<string, real>, lo: real) {
    && ("sad" in m ==> lo <= m["sad"]) && ("neutral" in m ==> lo <= m["neutral"])
    && ("fear" in m ==> lo <= m["fear"]) && ("angry" in m ==> lo <= m["angry"])
  }

  /** Every weighted emotion present in `m` scores at most `hi`. */
  predicate WeightedScoresBelow(m: map<string, real>, hi: real) {
    && ("sad" in m ==> m["sad"] <= hi) && ("neutral" in m ==> m["neutral"] <= hi)
    && ("fear" in m ==> m["fear"] <= hi) && ("angry" in m ==> m["angry"] <= hi)
  }

  function Min(a: real, b: real): real {
    if a <= b then a else b
  }

  /** The sleep probability of one detection: the weight-averaged score of
      the weighted emotions present, capped at 1.0, and 0.0 when none of
      them is present. */
  function SleepProbability(m: map<string, real>): (p: real)
    ensures p <= 1.0
    ensures !HasWeightedEmotion(m) ==> p == 0.0
    ensures HasWeightedEmotion(m) && WeightedSum(m) <= TotalWeight(m) ==> p == WeightedSum(m) / TotalWeight(m)
    ensures HasWeightedEmotion(m) && WeightedSum(m) > TotalWeight(m) ==> p == 1.0
  {
    var total := TotalWeight(m);
    if total == 0.0 then 0.0 else Min(WeightedSum(m) / total, 1.0)
  }

  /** The weight an emotion brings to the total when it is present. */
  function Present(m: map<string, real>, key: string, w: real): real {
    if key in m then w else 0.0
  }

  lemma TermAbove(m: map<string, real>, key: string, w: real, lo: real)
    requires 0.0 <= w
    requires key in m ==> lo <= m[key]
    ensures lo * Present(m, key, w) <= ScoreIn(m, key) * w
  {
  }

  lemma TermBelow(m: map<string, real>, key: string, w: real, hi: real)
    requires 0.0 <= w
    requires key in m ==> m[key] <= hi
    ensures ScoreIn(m, key) * w <= hi * Present(m, key, w)
  {
  }

  /** Scores of at least `lo` make the weighted sum at least `lo` times the
      total weight. */
  lemma WeightedSumAbove(m: map<string, real>, lo: real)
    requires WeightedScoresAbove(m, lo)
    ensures lo * TotalWeight(m) <= WeightedSum(m)
  {
    TermAbove(m, "sad", 0.4, lo);
    TermAbove(m, "neutral", 0.3, lo);
    TermAbove(m, "fear", 0.2, lo);
    TermAbove(m, "angry", 0.1, lo);
    assert TotalWeight(m) == Present(m, "sad", 0.4) + Present(m, "neutral", 0.3)
                             + Present(m, "fear", 0.2) + Present(m, "angry", 0.1);
  }

  /** Scores of at most `hi` make the weighted sum at most `hi` times the
      total weight. */
  lemma WeightedSumBelow(m: map<string, real>, hi: real)
    requires WeightedScoresBelow(m, hi)
    ensures WeightedSum(m) <= hi * TotalWeight(m)
  {
    TermBelow(m, "sad", 0.4, hi);
    TermBelow(m, "neutral", 0.3, hi);
    TermBelow(m, "fear", 0.2, hi);
    TermBelow(m, "angry", 0.1, hi);
    assert TotalWeight(m) == Present(m, "sad", 0.4) + Present(m, "neutral", 0.3)
                             + Present(m, "fear", 0.2) + Present(m, "angry", 0.1);
  }

  lemma QuotientAbove(sum: real, total: real, lo: real)
    requires 0.0 < total && lo * total <= sum
    ensures lo <= sum / total
  {
  }

  lemma QuotientBelow(sum: real, total: real, hi: real)
    requires 0.0 < total && sum <= hi * total
    ensures sum / total <= hi
  {
  }

  /** The result is a weighted mean: it lies between the smallest and the
      largest weighted score present (the cap aside). */
  lemma {:induction false} SleepProbabilityIsMean(m: map<string, real>, lo: real, hi: real)
    requires HasWeightedEmotion(m)
    requires WeightedScoresAbove(m, lo) && WeightedScoresBelow(m, hi)
    ensures Min(lo, 1.0) <= SleepProbability(m) <= hi
  {
    WeightedSumAbove(m, lo);
    WeightedSumBelow(m, hi);
    QuotientAbove(WeightedSum(m), TotalWeight(m), lo);
    QuotientBelow(WeightedSum(m), TotalWeight(m), hi);
  }

  /** Non-negative scores give a probability in [0, 1], however large
      they are. */
  lemma SleepProbabilityInUnitRange(m: map<string, real>)
    requires WeightedScoresAbove(m, 0.0)
    ensures 0.0 <= SleepProbability(m) <= 1.0
  {
    WeightedSumAbove(m, 0.0);
  }

  /** Emotions outside the four weighted ones play no part: two maps that
      agree on the weighted emotions give the same probability. */
  lemma SleepProbabilityIgnoresOtherKeys(m: map<string, real>, m': map<string, real>)
    requires forall key :: key in SleepWeights ==> (key in m <==> key in m')
    requires forall key :: key in SleepWeights && key in m ==> m[key] == m'[key]
    ensures SleepProbability(m) == SleepProbability(m')
  {
  }

  /** With only `happy` scored the probability is 0.0; with sad 0.6,
      neutral 0.3 and happy 0.1 it is 0.33 / 0.7, about 0.4714. */
  lemma SleepProbabilityExamples(happy: real)
    ensures SleepProbability(map["happy" := happy]) == 0.0
    ensures SleepProbability(map["sad" := 0.6, "neutral" := 0.3, "happy" := 0.1]) == 0.33 / 0.7
  {
  }

  /** Going from `before` to `after` by adding key `e` leaves `key` as it
      was, unless `key` is `e` itself. */
  predicate InsertedAt(before: map<string, real>, after: map<string, real>, e: string, key: string) {
    && (key in after <==> key in before || key == e)
    && (key in before ==> key in after && after[key] == before[key])
  }

  /** Adding a key `e` that `before` lacks adds its weight and its score
      times weight to the sums when `e` is a weighted emotion, and nothing
      otherwise. Only the four weighted keys of `after` are described. */
  lemma SumsAfterInsert(before: map<string, real>, after: map<string, real>, e: string, v: real)
    requires e !in before && e in after && after[e] == v
    requires InsertedAt(before, after, e, "sad") && InsertedAt(before, after, e, "neutral")
    requires InsertedAt(before, after, e, "fear") && InsertedAt(before, after, e, "angry")
    ensures TotalWeight(after) == TotalWeight(before) + WeightOf(e)
    ensures WeightedSum(after) == WeightedSum(before) + Contribution(e, v)
  {
  }

  /** Reading one more item of the dictionary adds its score times weight,
      and its weight, when it is a weighted emotion, and nothing otherwise. */
  lemma PrefixSumsStep(emotions: Emotions, i: nat)
    requires i < |emotions|
    ensures TotalWeight(PrefixMap(emotions, i + 1))
            == TotalWeight(PrefixMap(emotions, i)) + WeightOf(emotions[i].0)
    ensures WeightedSum(PrefixMap(emotions, i + 1))
            == WeightedSum(PrefixMap(emotions, i)) + Contribution(emotions[i].0, emotions[i].1)
  {
    var before := PrefixMap(emotions, i);
    var after := PrefixMap(emotions, i + 1);
    PrefixMapSnoc(emotions, i);
    SumsAfterInsert(before, after, emotions[i].0, emotions[i].1);
  }

  /** The weighted sum accumulated over the first `n` items. */
  function RunningSum(emotions: Emotions, n: nat): real
    requires n <= |emotions|
  {
    if n == 0 then 0.0 else RunningSum(emotions, n - 1) + Contribution(emotions[n - 1].0, emotions[n - 1].1)
  }

  /** The total weight accumulated over the first `n` items. */
  function RunningWeight(emotions: Emotions, n: nat): real
    requires n <= |emotions|
  {
    if n == 0 then 0.0 else RunningWeight(emotions, n - 1) + WeightOf(emotions[n - 1].0)
  }

  /** Accumulating item by item gives the sums of the dictionary read so far. */
  lemma {:induction false} RunningSumsMatchMap(emotions: Emotions, n: nat)
    requires n <= |emotions|
    ensures RunningSum(emotions, n) == WeightedSum(PrefixMap(emotions, n))
    ensures RunningWeight(emotions, n) == TotalWeight(PrefixMap(emotions, n))
  {
    if n > 0 {
      RunningSumsMatchMap(emotions, n - 1);
      PrefixSumsStep(emotions, n - 1);
    }
  }

  /** `calculate_sleep_probability`: one pass over the dictionary's items in
      their order, accumulating score times weight and the weight of each
      weighted emotion met. */
  method CalculateSleepProbability(emotions: Emotions) returns (p: real)
    ensures p == SleepProbability(AsMap(emotions))
  {
    var totalWeight := 0.0;
    var weightedSum := 0.0;
    var i := 0;
    while i < |emotions|
      invariant 0 <= i <= |emotions|
      invariant totalWeight == RunningWeight(emotions, i)
      invariant weightedSum == RunningSum(emotions, i)
    {
      var emotion := emotions[i].0;
      var score := emotions[i].1;
      if emotion in SleepWeights {
        weightedSum := weightedSum + score * SleepWeights[emotion];
        totalWeight := totalWeight + SleepWeights[emotion];
      }
      i := i + 1;
    }
    RunningSumsMatchMap(emotions, |emotions|);
    if totalWeight == 0.0 {
      return 0.0;
    }
    p := Min(weightedSum / totalWeight, 1.0);
  }

  // ---------------------------------------------------------------------
  // Frame validation
  // ---------------------------------------------------------------------

  /** The shape of an image array (`frame.shape`). */
  type Shape = seq<nat>

  /** A captured frame, reduced to its shape; `None` is a missing frame. */
  type Frame = Option<Shape>

  /** The number of elements of an array of the given shape (`frame.size`). */
  function Size(shape: Shape): nat {
    if |shape| == 0 then 1 else shape[0] * Size(shape[1..])
  }

  /** An array is empty exactly when one of its dimensions is zero. */
  lemma {:induction false} SizeZero(shape: Shape)
    ensures Size(shape) == 0 <==> exists i :: 0 <= i < |shape| && shape[i] == 0
  {
    if |shape| > 0 {
      SizeZero(shape[1..]);
      assert forall i :: 0 < i < |shape| ==> shape[i] == shape[1..][i - 1];
      if Size(shape[1..]) == 0 {
        var j :| 0 <= j < |shape[1..]| && shape[1..][j] == 0;
        assert shape[j + 1] == 0;
      }
    }
  }

  /** `validate_frame`: a present three-channel image of rank 3 with at
      least one pixel. */
  function ValidateFrame(frame: Frame): (ok: bool)
    ensures ok <==> frame.Some? && |frame.value| == 3 && frame.value[2] == 3
                    && frame.value[0] > 0 && frame.value[1] > 0
  {
    if frame.None? then false
    else if |frame.value| != 3 || frame.value[2] != 3 then false
    else
      SizeZero(frame.value);
      Size(frame.value) != 0
  }

  /** A 480x640 colour image passes; a 480x640 grey image, an empty array
      and a missing frame do not. */
  lemma ValidateFrameExamples()
    ensures ValidateFrame(Some([480, 640, 3]))
    ensures !ValidateFrame(Some([480, 640]))
    ensures !ValidateFrame(Some([0]))
    ensures !ValidateFrame(None)
  {
  }
}
