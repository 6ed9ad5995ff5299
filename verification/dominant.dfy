/**
  `get_dominant_emotion`: the label reported to the client, chosen from a
  score dictionary.
 */
module Dominant {
  import opened EmotionScores

  const Neutral: string := "neutral"
  const Calm: string := "calm"

  /** Scores below this are too faint to name an emotion. */
  const LowConfidence: real := 0.1

  /** The dictionary carries no signal: it is empty or every score is zero. */
  predicate NoSignal(e: Scores) {
    |e| == 0 || AllZero(e)
  }

  /** Every first maximal entry is the one `MaxIndex` picks. */
  lemma OnlyFirstMax(e: Scores, k0: nat)
    requires IsFirstMax(e, k0)
    ensures forall k :: IsFirstMax(e, k) ==> k == k0
  {
    forall k | IsFirstMax(e, k)
      ensures k == k0
    {
      FirstMaxUnique(e, k, k0);
    }
  }

  /** `get_dominant_emotion(emotions)`: `('neutral', 0.0)` exactly when there
      is no signal; otherwise the first entry in insertion order with the
      largest score, reported as `calm` when that score is below 0.1, and
      always with that score as the confidence. */
  function GetDominantEmotion(e: Scores): (r: (string, real))
    ensures NoSignal(e) <==> r == (Neutral, 0.0)
    ensures !NoSignal(e) ==>
              forall k :: IsFirstMax(e, k) ==>
                r == (if e[k].score < LowConfidence then Calm else e[k].emotion, e[k].score)
  {
    if NoSignal(e) then (Neutral, 0.0)
    else
      var k := MaxIndex(e);
      OnlyFirstMax(e, k);
      var (emotion, confidence) := (e[k].emotion, e[k].score);
      if confidence < LowConfidence then (Calm, confidence) else (emotion, confidence)
  }

  /** The reported confidence bounds every score when there is a signal. */
  lemma ConfidenceIsMaximum(e: Scores)
    requires !NoSignal(e)
    ensures forall i :: 0 <= i < |e| ==> e[i].score <= GetDominantEmotion(e).1
    ensures exists i :: 0 <= i < |e| && e[i].score == GetDominantEmotion(e).1
  {
    var k := MaxIndex(e);
    assert IsFirstMax(e, k);
  }

  /** Ties go to the entry inserted first: when entries `i` and `j`, `i`
      before `j`, share the top score and that score is not too faint, the
      answer is a key inserted no later than `i`, at that score, and never
      `j`'s key. */
  lemma TieGoesToFirstInserted(e: Scores, i: nat, j: nat)
    requires DistinctKeys(e)
    requires i < j < |e|
    requires e[i].score == e[j].score >= LowConfidence
    requires forall k :: 0 <= k < |e| ==> e[k].score <= e[i].score
    ensures exists k :: 0 <= k <= i && GetDominantEmotion(e) == (e[k].emotion, e[i].score)
    ensures GetDominantEmotion(e).0 != e[j].emotion
  {
    var k := MaxIndex(e);
    assert e[k].score == e[i].score;
    assert k <= i;
    assert !AllZero(e);
  }

  /** An instance of the tie rule: `{'sad': 0.5, 'angry': 0.5}` is answered `sad`. */
  lemma SadBeforeAngry()
    ensures GetDominantEmotion([Entry("sad", 0.5), Entry("angry", 0.5)]) == ("sad", 0.5)
  {
    var e := [Entry("sad", 0.5), Entry("angry", 0.5)];
    assert IsFirstMax(e, 0);
  }
}
