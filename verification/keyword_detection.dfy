/**
  The keyword fallback of the emotion detector (`keyword_based_emotion_detection`
  in main.py): count the whole-word hits of each label's keywords in the
  lower-cased text, divide every count by the largest, and fall back to a
  faint `happy` when nothing matched.
 */
module KeywordDetection {
  import opened PyText
  import opened WordMatch
  import opened EmotionScores

  /** The detector's labels, in the order its keyword table lists them. */
  const EmotionLabels: seq<string> := ["happy", "sad", "angry", "fear", "surprise"]

  const HappyKeywords: seq<Keyword> :=
    ["happy", "joy", "excited", "great", "amazing", "wonderful", "fantastic",
     "awesome", "good", "love", "smile", "laugh", "cheerful", "delighted"]
  const SadKeywords: seq<Keyword> :=
    ["sad", "depressed", "unhappy", "miserable", "upset", "down", "blue",
     "grief", "sorrow", "cry", "tears", "lonely", "heartbroken"]
  const AngryKeywords: seq<Keyword> :=
    ["angry", "mad", "furious", "rage", "hate", "annoyed", "frustrated",
     "irritated", "pissed", "outraged", "livid", "enraged"]
  const FearKeywords: seq<Keyword> :=
    ["afraid", "scared", "fear", "terrified", "worried", "anxious", "panic",
     "nervous", "frightened", "alarmed", "concerned"]
  const SurpriseKeywords: seq<Keyword> :=
    ["surprised", "shocked", "amazed", "astonished", "stunned",
     "bewildered", "confused", "wow", "unbelievable"]

  /** The keywords of each label, index for index with `EmotionLabels`. */
  const EmotionKeywords: seq<seq<Keyword>> :=
    [HappyKeywords, SadKeywords, AngryKeywords, FearKeywords, SurpriseKeywords]

  /** The score given to `happy` when the text has words but no keyword. */
  const Baseline: real := 0.1

  /** Hits of all the keywords `kws` in `t`, each counted as `re.findall` does.
      Whitespace alone holds no hit. */
  function KeywordHits(t: string, kws: seq<Keyword>): (h: nat)
    ensures AllSpace(t) ==> h == 0
    decreases |kws|
  {
    if |kws| == 0 then 0
    else KeywordHits(t, kws[..|kws| - 1]) + FindAll(t, kws[|kws| - 1])
  }

  /** The number of whole-word occurrences of the keywords `kws` in `t`. */
  function WholeWordHits(t: string, kws: seq<Keyword>): nat
    decreases |kws|
  {
    if |kws| == 0 then 0
    else WholeWordHits(t, kws[..|kws| - 1]) + CountWholeWords(t, kws[|kws| - 1])
  }

  /** A label's hits are exactly the whole-word occurrences of its keywords. */
  lemma {:induction false} KeywordHitsAreWholeWords(t: string, kws: seq<Keyword>)
    ensures KeywordHits(t, kws) == WholeWordHits(t, kws)
    decreases |kws|
  {
    if |kws| > 0 {
      KeywordHitsAreWholeWords(t, kws[..|kws| - 1]);
      FindAllCountsWholeWords(t, kws[|kws| - 1]);
    }
  }

  /** The hit count of each label in `t`, in label order: one count per label,
      and every count zero on whitespace alone. */
  function Counts(t: string): (c: seq<nat>)
    ensures |c| == |EmotionLabels|
    ensures AllSpace(t) ==> forall i :: 0 <= i < |c| ==> c[i] == 0
  {
    seq(5, i requires 0 <= i < 5 => KeywordHits(t, EmotionKeywords[i]))
  }

  /** The largest of the counts (0 for none). */
  function MaxCount(c: seq<nat>): (m: nat)
    ensures forall i :: 0 <= i < |c| ==> c[i] <= m
    ensures |c| > 0 ==> exists i :: 0 <= i < |c| && c[i] == m
    ensures |c| == 0 ==> m == 0
    decreases |c|
  {
    if |c| == 0 then 0
    else
      var m := MaxCount(c[..|c| - 1]);
      if c[|c| - 1] > m then c[|c| - 1] else m
  }

  /** `{emotion: 0.0 for emotion in emotion_keywords.keys()}`: every label, in
      table order, at zero. */
  function ZeroScores(): (r: Scores)
    ensures KeysOf(r) == EmotionLabels
    ensures AllZero(r)
  {
    seq(5, i requires 0 <= i < 5 => Entry(EmotionLabels[i], 0.0))
  }

  /** The result for text with words but no keyword: all zero but `happy`. */
  function BaselineScores(): Scores {
    ZeroScores()[0 := Entry("happy", Baseline)]
  }

  /** `{k: v / m for k, v in scores.items()}`: the same keys in the same
      order, each score scaled so that multiplying back by `m` restores it. */
  function Normalize(s: Scores, m: real): (r: Scores)
    requires m != 0.0
    ensures KeysOf(r) == KeysOf(s)
    ensures forall i :: 0 <= i < |r| ==> r[i].score * m == s[i].score
  {
    seq(|s|, i requires 0 <= i < |s| => Entry(s[i].emotion, s[i].score / m))
  }

  /** The tally and normalisation steps once each label's hit count is known:
      add the counts to the zero scores, divide by the largest score (or by 1
      when every score is zero), and give `happy` the baseline if everything
      is still zero. Keys stay the five labels in table order. */
  function ScoresFromCounts(counts: seq<nat>): (r: Scores)
    requires |counts| == |EmotionLabels|
    ensures KeysOf(r) == EmotionLabels
  {
    var scores := ZeroScores();
    var tallied := seq(5, i requires 0 <= i < 5 =>
                         Entry(scores[i].emotion, scores[i].score + counts[i] as real));
    var maxScore := if !AllZero(tallied) then MaxValue(tallied) else 1.0;
    var normalized := if maxScore > 0.0 then Normalize(tallied, maxScore) else tallied;
    assert KeysOf(normalized) == EmotionLabels;
    if AllZero(normalized) then SetScore(normalized, "happy", Baseline) else normalized
  }

  /** `keyword_based_emotion_detection(text)`: always the five labels in
      table order, and all zero when the text has no word. */
  function KeywordBasedEmotionDetection(text: string): (r: Scores)
    ensures KeysOf(r) == EmotionLabels
    ensures WordCount(text) == 0 ==> AllZero(r)
  {
    var textLower := Lower(text);
    if WordCount(text) == 0 then ZeroScores()
    else ScoresFromCounts(Counts(textLower))
  }

  lemma DivideBounds(a: real, m: real)
    requires 0.0 <= a <= m && m > 0.0
    ensures 0.0 <= a / m <= 1.0
    ensures a / m == 1.0 <==> a == m
  {
  }

  /** With at least one hit, each label scores its count divided by the
      largest count. */
  lemma RatiosOfCounts(c: seq<nat>)
    requires |c| == |EmotionLabels|
    requires MaxCount(c) > 0
    ensures var r := ScoresFromCounts(c);
            forall i :: 0 <= i < |r| ==> r[i].score == c[i] as real / MaxCount(c) as real
  {
    var m := MaxCount(c);
    var scores := ZeroScores();
    var tallied := seq(5, i requires 0 <= i < 5 =>
                         Entry(scores[i].emotion, scores[i].score + c[i] as real));
    assert forall i :: 0 <= i < 5 ==> tallied[i].score == c[i] as real;
    var top :| 0 <= top < 5 && c[top] == m;
    assert tallied[top].score == m as real;
    var v := MaxValue(tallied);
    assert v == m as real by {
      var w :| 0 <= w < 5 && tallied[w].score == v;
      assert c[w] <= m;
      assert tallied[top].score <= v;
    }
    var normalized := Normalize(tallied, v);
    DivideBounds(tallied[top].score, v);
    assert normalized[top].score == 1.0;
    assert !AllZero(normalized);
    assert ScoresFromCounts(c) == normalized;
    assert forall i :: 0 <= i < 5 ==> normalized[i].score == c[i] as real / m as real;
  }

  /** With no hit at all, the scores are the baseline: all zero but `happy`. */
  lemma BaselineOfNoCounts(c: seq<nat>)
    requires |c| == |EmotionLabels|
    requires MaxCount(c) == 0
    ensures ScoresFromCounts(c) == BaselineScores()
  {
    var scores := ZeroScores();
    assert forall i :: 0 <= i < 5 ==> c[i] == 0;
    var tallied := seq(5, i requires 0 <= i < 5 =>
                         Entry(scores[i].emotion, scores[i].score + c[i] as real));
    assert tallied == scores;
    assert AllZero(tallied);
    var normalized := Normalize(tallied, 1.0);
    assert normalized == scores;
    BaselineIsHappyOnZeros();
  }

  /** Setting `happy` to the baseline on the zero scores gives the baseline scores. */
  lemma BaselineIsHappyOnZeros()
    ensures SetScore(ZeroScores(), "happy", Baseline) == BaselineScores()
  {
    var z := ZeroScores();
    assert z[0].emotion == "happy";
    assert SetScore(z, "happy", Baseline) == [Entry("happy", Baseline)] + z[1..];
  }

  /** A keyword hit needs a word: text that `split()` finds no word in is all
      whitespace, also once lower-cased, and so holds no keyword. */
  lemma KeywordHitNeedsAWord(text: string)
    ensures MaxCount(Counts(Lower(text))) > 0 ==> WordCount(text) > 0
  {
    if WordCount(text) == 0 {
      var low := Lower(text);
      assert AllSpace(low);
      var c := Counts(low);
      var k :| 0 <= k < |c| && c[k] == MaxCount(c);
    }
  }

  /** When some keyword matched, each label scores its hit count divided by the
      largest hit count. */
  lemma MatchedScoresAreRatios(text: string)
    requires MaxCount(Counts(Lower(text))) > 0
    ensures var c := Counts(Lower(text));
            var r := KeywordBasedEmotionDetection(text);
            forall i :: 0 <= i < |r| ==> r[i].score == c[i] as real / MaxCount(c) as real
  {
    KeywordHitNeedsAWord(text);
    RatiosOfCounts(Counts(Lower(text)));
  }

  /** When the text has words but no keyword, the result is all zero except
      `happy`, which gets the baseline 0.1. */
  lemma UnmatchedScoresAreBaseline(text: string)
    requires WordCount(text) > 0
    requires MaxCount(Counts(Lower(text))) == 0
    ensures KeywordBasedEmotionDetection(text) == BaselineScores()
  {
    BaselineOfNoCounts(Counts(Lower(text)));
  }

  /** Every score lies in [0, 1]. */
  lemma ScoresInUnitInterval(text: string)
    ensures var r := KeywordBasedEmotionDetection(text);
            forall i :: 0 <= i < |r| ==> 0.0 <= r[i].score <= 1.0
  {
    var c := Counts(Lower(text));
    if WordCount(text) > 0 {
      if MaxCount(c) > 0 {
        RatiosOfCounts(c);
        forall i | 0 <= i < 5
          ensures 0.0 <= c[i] as real / MaxCount(c) as real <= 1.0
        {
          DivideBounds(c[i] as real, MaxCount(c) as real);
        }
      } else {
        BaselineOfNoCounts(c);
      }
    }
  }

  /** When some keyword matched, the labels with the most hits score exactly 1,
      and no other label does. */
  lemma TopLabelsScoreOne(text: string, i: nat)
    requires MaxCount(Counts(Lower(text))) > 0
    requires i < |EmotionLabels|
    ensures var c := Counts(Lower(text));
            KeywordBasedEmotionDetection(text)[i].score == 1.0 <==> c[i] == MaxCount(c)
  {
    var c := Counts(Lower(text));
    KeywordHitNeedsAWord(text);
    RatiosOfCounts(c);
    DivideBounds(c[i] as real, MaxCount(c) as real);
  }

  /** Matching ignores case: the text and its lower-cased form score alike. */
  lemma CaseInsensitive(text: string)
    ensures KeywordBasedEmotionDetection(Lower(text)) == KeywordBasedEmotionDetection(text)
  {
    LowerIdempotent(text);
    WordCountOfLower(text);
  }
}
