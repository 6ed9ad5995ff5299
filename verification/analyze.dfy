/**
  The `/analyze` request path: strip and validate the text, score it with the
  engine chosen at start-up, and report the dominant emotion.
 */
module Analyze {
  import opened PyText
  import opened EmotionScores
  import opened KeywordDetection
  import opened Dominant

  datatype Option<T> = None | Some(value: T)

  /** An `HTTPException`: status code and detail message. */
  datatype HttpError = HttpError(status: nat, detail: string)

  datatype Result<T> = Ok(value: T) | Err(error: HttpError)

  /** The body of a successful `/analyze` response, before rounding. */
  datatype EmotionResponse = EmotionResponse(emotion: string, confidence: real, allEmotions: Scores)

  /** The scoring engine, fixed once at start-up by whether `text2emotion`
      could be imported. The library itself is opaque: `getEmotion(text)` is
      the dictionary `te.get_emotion` returns, or `None` when it raises. */
  datatype Engine =
    | KeywordBased
    | Text2Emotion(getEmotion: string -> Option<map<string, real>>)

  const BadRequest: nat := 400
  const MaxTextLength: nat := 1000
  const EmptyTextDetail: string := "Text input cannot be empty"
  const TooLongDetail: string := "Text too long (max 1000 characters)"

  /** The input guard: the stripped text is accepted when it is neither empty
      nor over 1000 characters, and both rejections are 400s. Accepted text is
      the input minus surrounding whitespace and always holds a word. */
  function ValidateText(raw: string): (r: Result<string>)
    ensures r.Err? <==> AllSpace(raw) || |Strip(raw)| > MaxTextLength
    ensures r.Err? ==> r.error.status == BadRequest
    ensures r.Err? ==> (r.error.detail == EmptyTextDetail <==> AllSpace(raw))
    ensures r.Ok? ==> 0 < |r.value| <= MaxTextLength && WordCount(r.value) > 0
    ensures r.Ok? ==> !IsSpace(r.value[0]) && !IsSpace(r.value[|r.value| - 1])
    ensures r.Ok? ==> exists i :: TrimmedSlice(raw, i, r.value)
  {
    var text := Strip(raw);
    if |text| == 0 then Err(HttpError(BadRequest, EmptyTextDetail))
    else if |text| > MaxTextLength then Err(HttpError(BadRequest, TooLongDetail))
    else Ok(text)
  }

  /** `text2emotion`'s label names and the detector's, in the order the
      mapping lists them. */
  const LibraryNames: seq<(string, string)> :=
    [("Happy", "happy"), ("Angry", "angry"), ("Sad", "sad"), ("Surprise", "surprise"), ("Fear", "fear")]

  /** `emotions.get(original, 0.0)`: a library score, 0.0 when the library
      left the name out. */
  function LibraryScore(emotions: map<string, real>, original: string): real {
    if original in emotions then emotions[original] else 0.0
  }

  /** The library's dictionary renamed into the detector's labels, in the
      mapping's order: looking a label up in the result gives exactly what the
      library reported under that label's own name, or 0.0 when it reported
      nothing. */
  function FromLibrary(emotions: map<string, real>): (r: Scores)
    ensures KeysOf(r) == ["happy", "angry", "sad", "surprise", "fear"]
    ensures forall i :: 0 <= i < |LibraryNames| ==>
              Get(r, LibraryNames[i].1, 0.0) == LibraryScore(emotions, LibraryNames[i].0)
    ensures forall i :: 0 <= i < |r| ==>
              (r[i].score == 0.0 <==> LibraryNames[i].0 !in emotions || emotions[LibraryNames[i].0] == 0.0)
  {
    var r := seq(5, i requires 0 <= i < 5 =>
                   Entry(LibraryNames[i].1, LibraryScore(emotions, LibraryNames[i].0)));
    RenamedScoresRead(emotions, r);
    r
  }

  /** The detector labels of the mapping differ pairwise. */
  lemma LibraryLabelsDistinct()
    ensures forall i, j :: 0 <= i < j < |LibraryNames| ==> LibraryNames[i].1 != LibraryNames[j].1
  {
    var n := LibraryNames;
    assert n[0].1[0] == 'h' && n[1].1[0] == 'a' && n[4].1[0] == 'f';
    assert n[2].1[0] == 's' && n[2].1[1] == 'a';
    assert n[3].1[0] == 's' && n[3].1[1] == 'u';
  }

  /** Entries renamed label by label read back, under each detector label,
      the library's score for the matching library name. */
  lemma RenamedScoresRead(emotions: map<string, real>, r: Scores)
    requires |r| == |LibraryNames|
    requires forall i :: 0 <= i < |r| ==>
               r[i] == Entry(LibraryNames[i].1, LibraryScore(emotions, LibraryNames[i].0))
    ensures forall i :: 0 <= i < |LibraryNames| ==>
              Get(r, LibraryNames[i].1, 0.0) == LibraryScore(emotions, LibraryNames[i].0)
  {
    LibraryLabelsDistinct();
    forall i | 0 <= i < |LibraryNames|
      ensures Get(r, LibraryNames[i].1, 0.0) == LibraryScore(emotions, LibraryNames[i].0)
    {
      GetReadsOwnKey(r, i, 0.0);
    }
  }

  /** `analyze_emotion_text2emotion`: the library's scores renamed, or the
      keyword detector's when the library raises. */
  function AnalyzeEmotionText2Emotion(text: string, getEmotion: string -> Option<map<string, real>>): (r: Scores)
    ensures getEmotion(text).None? ==> r == KeywordBasedEmotionDetection(text)
    ensures multiset(KeysOf(r)) == multiset(EmotionLabels)
  {
    match getEmotion(text)
    case Some(emotions) =>
      var r := FromLibrary(emotions);
      assert KeysOf(r) == [EmotionLabels[0], EmotionLabels[2], EmotionLabels[1],
                           EmotionLabels[4], EmotionLabels[3]];
      r
    case None => KeywordBasedEmotionDetection(text)
  }

  /** The score dictionary of the engine in use. */
  function EngineScores(engine: Engine, text: string): (r: Scores)
    ensures multiset(KeysOf(r)) == multiset(EmotionLabels)
  {
    match engine
    case KeywordBased => KeywordBasedEmotionDetection(text)
    case Text2Emotion(getEmotion) => AnalyzeEmotionText2Emotion(text, getEmotion)
  }

  /** `analyze_emotion`: rejected with 400 exactly when the stripped text is
      empty or too long; otherwise every one of the five labels is scored and
      the reported emotion is one of them, or `neutral` or `calm`. */
  function AnalyzeEmotion(raw: string, engine: Engine): (r: Result<EmotionResponse>)
    ensures r.Err? <==> AllSpace(raw) || |Strip(raw)| > MaxTextLength
    ensures r.Err? ==> r.error.status == BadRequest
    ensures r.Ok? ==> multiset(KeysOf(r.value.allEmotions)) == multiset(EmotionLabels)
    ensures r.Ok? ==> r.value.emotion in EmotionLabels || r.value.emotion in {Neutral, Calm}
  {
    match ValidateText(raw)
    case Err(e) => Err(e)
    case Ok(text) =>
      var emotions := EngineScores(engine, text);
      var dominant := GetDominantEmotion(emotions);
      ReportedEmotionIsALabel(emotions);
      Ok(EmotionResponse(dominant.0, dominant.1, emotions))
  }

  lemma ReportedEmotionIsALabel(e: Scores)
    requires multiset(KeysOf(e)) == multiset(EmotionLabels)
    ensures GetDominantEmotion(e).0 in EmotionLabels || GetDominantEmotion(e).0 in {Neutral, Calm}
  {
    DominantIsAKey(e);
    var d := GetDominantEmotion(e).0;
    if d in KeysOf(e) {
      assert d in multiset(KeysOf(e));
    }
  }

  /** The dominant emotion is a key of the dictionary, `neutral` or `calm`. */
  lemma DominantIsAKey(e: Scores)
    ensures GetDominantEmotion(e).0 in KeysOf(e) || GetDominantEmotion(e).0 in {Neutral, Calm}
  {
    if !NoSignal(e) {
      var k := MaxIndex(e);
      assert KeysOf(e)[k] == e[k].emotion;
    }
  }

  /** `k` is the first label, in table order, with the most hits. */
  predicate FirstTopLabel(c: seq<nat>, k: int) {
    && 0 <= k < |c| && c[k] == MaxCount(c)
    && (forall j :: 0 <= j < k ==> c[j] < c[k])
  }

  /** Scored from counts with at least one hit, the dominant emotion is the
      first label with the most hits, at confidence 1. */
  lemma DominantOfMatchedCounts(c: seq<nat>)
    requires |c| == |EmotionLabels| && MaxCount(c) > 0
    ensures var d := GetDominantEmotion(ScoresFromCounts(c));
            d.1 == 1.0 && exists k :: FirstTopLabel(c, k) && d.0 == EmotionLabels[k]
  {
    var s := ScoresFromCounts(c);
    var m := MaxCount(c);
    RatiosOfCounts(c);
    var k := MaxIndex(s);
    var top :| 0 <= top < 5 && c[top] == m;
    DivideBounds(c[top] as real, m as real);
    DivideBounds(c[k] as real, m as real);
    assert s[top].score == 1.0;
    assert c[k] == m;
    forall j | 0 <= j < k
      ensures c[j] < c[k]
    {
      DivideBounds(c[j] as real, m as real);
    }
    assert FirstTopLabel(c, k);
    assert KeysOf(s)[k] == s[k].emotion;
  }

  /** Scored from counts with no hit, the dominant emotion is `happy` at the
      baseline 0.1. */
  lemma DominantOfNoCounts(c: seq<nat>)
    requires |c| == |EmotionLabels| && MaxCount(c) == 0
    ensures GetDominantEmotion(ScoresFromCounts(c)) == ("happy", Baseline)
  {
    BaselineOfNoCounts(c);
    DominantOfBaseline();
  }

  /** The baseline scores name `happy` at 0.1: 0.1 is not below 0.1. */
  lemma DominantOfBaseline()
    ensures GetDominantEmotion(BaselineScores()) == ("happy", Baseline)
  {
    var s := BaselineScores();
    assert s[0] == Entry("happy", Baseline);
    assert forall i :: 1 <= i < |s| ==> s[i].score == 0.0;
    assert IsFirstMax(s, 0);
    assert !NoSignal(s);
  }

  /** An accepted request (its stripped text is non-empty and at most 1000
      characters long) is answered with the dominant emotion of the stripped
      text's scores. */
  lemma AcceptedResponse(raw: string, engine: Engine)
    requires !AllSpace(raw) && |Strip(raw)| <= MaxTextLength
    ensures var text := Strip(raw);
            var e := EngineScores(engine, text);
            && WordCount(text) > 0
            && AnalyzeEmotion(raw, engine).value
               == EmotionResponse(GetDominantEmotion(e).0, GetDominantEmotion(e).1, e)
  {
    assert ValidateText(raw) == Ok(Strip(raw));
  }

  /** With the keyword engine, an accepted request is answered with the first
      label, in table order, that has the most keyword hits, at confidence 1;
      or with `happy` at the baseline 0.1 when no keyword matched. */
  lemma KeywordEngineOutcome(raw: string)
    requires !AllSpace(raw) && |Strip(raw)| <= MaxTextLength
    ensures var resp := AnalyzeEmotion(raw, KeywordBased).value;
            var c := Counts(Lower(Strip(raw)));
            MaxCount(c) > 0 ==>
              resp.confidence == 1.0 && exists k :: FirstTopLabel(c, k) && resp.emotion == EmotionLabels[k]
    ensures var resp := AnalyzeEmotion(raw, KeywordBased).value;
            MaxCount(Counts(Lower(Strip(raw)))) == 0 ==>
              resp.emotion == "happy" && resp.confidence == Baseline
  {
    AcceptedResponse(raw, KeywordBased);
    var c := Counts(Lower(Strip(raw)));
    if MaxCount(c) > 0 {
      DominantOfMatchedCounts(c);
    } else {
      DominantOfNoCounts(c);
    }
  }

  /** Scored from any counts, the dominant emotion is one of the five labels,
      at confidence 1 or as `happy` at the baseline. */
  lemma DominantOfCountsIsALabel(c: seq<nat>)
    requires |c| == |EmotionLabels|
    ensures var d := GetDominantEmotion(ScoresFromCounts(c));
            && d.0 in EmotionLabels
            && (d.1 == 1.0 || d == ("happy", Baseline))
  {
    if MaxCount(c) > 0 {
      DominantOfMatchedCounts(c);
      var d := GetDominantEmotion(ScoresFromCounts(c));
      var k :| FirstTopLabel(c, k) && d.0 == EmotionLabels[k];
      assert EmotionLabels[k] in EmotionLabels;
    } else {
      DominantOfNoCounts(c);
    }
  }

  lemma ReservedNamesAreNotLabels()
    ensures Neutral !in EmotionLabels && Calm !in EmotionLabels
  {
    assert forall i :: 0 <= i < |EmotionLabels| ==>
             EmotionLabels[i][0] != Neutral[0] && EmotionLabels[i][0] != Calm[0];
  }

  /** With the keyword engine an accepted request is never answered `neutral`
      or `calm`: the scores always carry a signal of at least 0.1. */
  lemma KeywordEngineNeverNeutralOrCalm(raw: string)
    requires !AllSpace(raw) && |Strip(raw)| <= MaxTextLength
    ensures var resp := AnalyzeEmotion(raw, KeywordBased).value;
            && resp.emotion in EmotionLabels
            && resp.emotion != Neutral && resp.emotion != Calm
            && (resp.confidence == 1.0 || (resp.emotion == "happy" && resp.confidence == Baseline))
  {
    AcceptedResponse(raw, KeywordBased);
    var text := Strip(raw);
    var c := Counts(Lower(text));
    var e := EngineScores(KeywordBased, text);
    assert e == ScoresFromCounts(c);
    var d := GetDominantEmotion(e);
    DominantOfCountsIsALabel(c);
    assert AnalyzeEmotion(raw, KeywordBased).value.emotion == d.0;
    assert AnalyzeEmotion(raw, KeywordBased).value.confidence == d.1;
    ReservedNamesAreNotLabels();
  }
}
