# Emotion detection core of the AI Pal & Parenting API, in Dafny

This project models the decision logic behind the API's `POST /analyze` route
(`main.py`). The route takes a free-text string and answers with an emotion
label, a confidence and a score per label. The model covers:

- **The keyword detector** (`keyword_based_emotion_detection`). It lower-cases
  the text. For each of five labels (`happy`, `sad`, `angry`, `fear`,
  `surprise`) it counts the whole-word matches of that label's fixed keywords,
  as `re.findall(r'\bkw\b', …)` does. It divides each count by the largest
  count. Text without a word scores all zeros. Text with words but no keyword
  scores `happy = 0.1` and zero elsewhere.
- **The dominant-emotion choice** (`get_dominant_emotion`). An empty or
  all-zero dictionary gives `('neutral', 0.0)`. Otherwise the answer is the
  first entry, in insertion order, with the largest score. That answer becomes
  `calm` when its score is below 0.1.
- **The request guard and dispatch** of `analyze_emotion`. The text is
  stripped. Empty text and text over 1000 characters are rejected with 400.
  Accepted text is scored by the engine chosen at start-up, and the dominant
  emotion is reported.

Modules, one per concern:

| file | module | what it holds |
|---|---|---|
| `pytext.dfy` | `PyText` | `str.lower()`, `len(str.split())`, `str.strip()` and the regex class `\w`, restricted to ASCII |
| `word_match.dfy` | `WordMatch` | the `re.findall` scan for `\b kw \b`, and its equality with the whole-word occurrence count |
| `emotion_scores.dfy` | `EmotionScores` | the score dictionary as an insertion-ordered list of entries: `d[key] = v`, `d.get`, Python's `max` over items and values |
| `keyword_detection.dfy` | `KeywordDetection` | the keyword table, the per-label counts, normalisation and baseline, and their properties |
| `dominant.dfy` | `Dominant` | `get_dominant_emotion` |
| `analyze.dfy` | `Analyze` | the input guard, the two engines, the response, and what the keyword engine can answer |

Scores are ratios of natural numbers, or the constants 0 and 0.1, so they are
modelled exactly as Dafny `real`s.

## Model

| member | source | states |
|---|---|---|
| `PyText.Lower` | main.py:45 | lower-casing maps each capital 'A'..'Z' to its small letter (32 code points on) and keeps every other character, so the length is kept, no upper-case letter is left, and no space or word character is created or destroyed |
| `PyText.LowerIdempotent` | main.py:45 | lower-casing twice is the same as lower-casing once |
| `PyText.WordCount` | main.py:62-65 | the number of whitespace-separated words is zero exactly when the text is empty or all whitespace |
| `PyText.WordCountOfLower` | main.py:45-62 | lower-casing does not change how many words the text splits into |
| `PyText.Strip` | main.py:152 | the stripped text is a slice of the input with only whitespace cut from either end; it is empty exactly when the input is all whitespace, and otherwise neither starts nor ends with whitespace |
| `PyText.SkipSpaces` | main.py:152 | the left cut of `strip()`: everything skipped is whitespace, and the character it stops at is not |
| `PyText.SkipSpacesBack` | main.py:152 | the right cut of `strip()`: everything cut is whitespace, and the last character kept is not |
| `PyText.StripIdempotent` | main.py:152 | stripping twice is the same as stripping once |
| `WordMatch.MatchAtIsWholeWord` | main.py:70 | for a keyword of word characters, `\b kw \b` matches exactly where the keyword stands with no word character directly before or after it |
| `WordMatch.NoWholeWordInside` | main.py:70 | two whole-word occurrences of one keyword never overlap |
| `WordMatch.FindAllFrom` | main.py:70 | the `re.findall` scan from a position: its matches never overlap, so their number times the keyword's length fits in the rest of the text, and a stretch of whitespace holds none |
| `WordMatch.FindAll` | main.py:70 | `len(re.findall(r'\b' + kw + r'\b', t))` is at most `len(t) / len(kw)` and is zero on whitespace-only text |
| `WordMatch.FindAllFromCountsWholeWords` | main.py:70 | the left-to-right `findall` scan, which resumes after each match, counts every whole-word occurrence from a position on, and nothing else |
| `WordMatch.FindAllCountsWholeWords` | main.py:70 | the keyword's match count is its number of whole-word occurrences in the text |
| `WordMatch.SadnessHasNoSad` | main.py:70 | "sad" is not counted inside "sadness" |
| `WordMatch.NomadHasNoMad` | main.py:70 | "mad" is not counted at the end of "nomad" |
| `WordMatch.PunctuationBoundsWords` | main.py:70 | punctuation and spaces delimit words: "sad" counts twice in "sad, so sad!" |
| `EmotionScores.Get` | main.py:102 | `d.get(key, default)` reads the score of the first entry holding `key`, and the default when no entry holds it |
| `EmotionScores.GetReadsOwnKey` | main.py:102 | with distinct keys, looking up an entry's own key gives that entry's score |
| `EmotionScores.SetScore` | main.py:80 | assigning a key keeps the keys distinct; an existing key keeps its place in the key order, and a new key is appended |
| `EmotionScores.SetScoreReads` | main.py:80 | after `d[key] = v`, `key` reads as `v` and every other key reads as before |
| `EmotionScores.MaxIndex` | main.py:116 | `max(d.items(), key=…)` picks an entry whose score bounds all others and is strictly above every earlier entry's: the first maximal entry |
| `EmotionScores.FirstMaxUnique` | main.py:116 | there is only one first maximal entry |
| `EmotionScores.MaxValue` | main.py:74 | `max(d.values())` bounds every score and is attained by one |
| `KeywordDetection.MaxCount` | main.py:74 | the largest count bounds every count and, for a non-empty list, is one of them |
| `KeywordDetection.KeywordHits` | main.py:67-71 | a label's tally adds up the `findall` counts of its keywords, and is zero on whitespace-only text |
| `KeywordDetection.Counts` | main.py:67-71 | one tally per label, in table order, and every tally is zero on whitespace-only text |
| `KeywordDetection.KeywordHitsAreWholeWords` | main.py:67-71 | a label's tally is the sum, over its keywords, of their whole-word occurrences |
| `KeywordDetection.ZeroScores` | main.py:61 | the initial scores hold every label, in table order, at zero |
| `KeywordDetection.Normalize` | main.py:76 | dividing by the largest score keeps the keys and their order, and multiplying each new score back by the divisor gives the old score |
| `KeywordDetection.ScoresFromCounts` | main.py:67-82 | after tallying and normalising, the keys are the five labels, in table order |
| `KeywordDetection.KeywordBasedEmotionDetection` | main.py:41-82 | the result's keys are exactly the five labels, in table order; text with no word scores all zeros |
| `KeywordDetection.RatiosOfCounts` | main.py:67-76 | when some count is positive, each label scores its count divided by the largest count |
| `KeywordDetection.BaselineOfNoCounts` | main.py:74-80 | when every count is zero, the scores are zero except `happy = 0.1` |
| `KeywordDetection.BaselineIsHappyOnZeros` | main.py:78-80 | setting `happy` to 0.1 on the zero scores gives zero scores except `happy = 0.1`, in the same key order |
| `KeywordDetection.KeywordHitNeedsAWord` | main.py:62-71 | a keyword hit implies that `split()` finds a word, so the early return for wordless text never hides a hit |
| `KeywordDetection.MatchedScoresAreRatios` | main.py:67-76 | for text with a keyword hit, each label scores its hit count divided by the largest hit count |
| `KeywordDetection.UnmatchedScoresAreBaseline` | main.py:74-80 | for text with words but no keyword hit, the scores are zero except `happy = 0.1` |
| `KeywordDetection.ScoresInUnitInterval` | main.py:73-80 | every score of every text lies in [0, 1] |
| `KeywordDetection.TopLabelsScoreOne` | main.py:73-76 | when a keyword hit, a label scores exactly 1 if and only if it has the most hits |
| `KeywordDetection.CaseInsensitive` | main.py:45-70 | a text and its lower-cased form get the same scores |
| `Dominant.GetDominantEmotion` | main.py:109-123 | `('neutral', 0.0)` exactly when the dictionary is empty or all zero; otherwise the first maximal entry's label and score, with the label replaced by `calm` when that score is below 0.1 |
| `Dominant.ConfidenceIsMaximum` | main.py:116-123 | when some score is non-zero, the reported confidence is the largest score |
| `Dominant.TieGoesToFirstInserted` | main.py:116-123 | when two entries share the top score of at least 0.1 and the keys are distinct, the answer is a key inserted no later than the first of them, at that score, and never the later one |
| `Dominant.SadBeforeAngry` | main.py:116-117 | an instance: `{'sad': 0.5, 'angry': 0.5}` is answered `('sad', 0.5)` |
| `Analyze.ValidateText` | main.py:152-158 | rejected with 400 exactly when the stripped text is empty or longer than 1000 characters, with the "empty" message exactly in the first case; accepted text is the input minus surrounding whitespace, 1 to 1000 characters long, and has a word |
| `Analyze.FromLibrary` | main.py:92-104 | the library's dictionary is renamed to the keys happy, angry, sad, surprise, fear, in that order; looking up each label gives exactly the library's value under its own name (`Happy`, `Angry`, …), or 0.0 when the library left it out; a label scores zero exactly when the library left it out or scored it zero |
| `Analyze.RenamedScoresRead` | main.py:100-102 | entries built label by label from the mapping read back, under each label, the library's value for the matching name |
| `Analyze.AnalyzeEmotionText2Emotion` | main.py:84-107 | when the library raises, the keyword detector's scores are used; either way the keys are the same five labels |
| `Analyze.EngineScores` | main.py:161-164 | whichever engine is active, the keys are the same five labels |
| `Analyze.AnalyzeEmotion` | main.py:145-173 | rejected with 400 exactly when the stripped text is empty or over 1000 characters; otherwise all five labels are scored, and the reported emotion is one of them or `neutral` or `calm` |
| `Analyze.DominantIsAKey` | main.py:113-123 | the dominant emotion is a key of the dictionary, `neutral` or `calm` |
| `Analyze.ReportedEmotionIsALabel` | main.py:113-123 | over a dictionary keyed by the five labels, the dominant emotion is a label, `neutral` or `calm` |
| `Analyze.DominantOfMatchedCounts` | main.py:113-123 | when some count is positive, the dominant emotion is the first label, in table order, with the most hits, at confidence 1 |
| `Analyze.DominantOfNoCounts` | main.py:113-123 | when no keyword hit, the dominant emotion is `('happy', 0.1)`, because 0.1 is not below 0.1 |
| `Analyze.DominantOfBaseline` | main.py:113-123 | the baseline scores are answered `('happy', 0.1)`, not `calm`, because 0.1 is not below 0.1 |
| `Analyze.DominantOfCountsIsALabel` | main.py:113-123 | over keyword scores, the dominant emotion is one of the five labels, at confidence 1 or as `('happy', 0.1)` |
| `Analyze.AcceptedResponse` | main.py:152-172 | an accepted request's stripped text has a word, and the response carries that text's scores and their dominant emotion |
| `Analyze.KeywordEngineOutcome` | main.py:152-167 | with the keyword engine, an accepted request gets the first label with the most hits at confidence 1, or `('happy', 0.1)` when no keyword matched |
| `Analyze.KeywordEngineNeverNeutralOrCalm` | main.py:152-167 | with the keyword engine, an accepted request is never answered `neutral` or `calm`; its confidence is 1, or it is `('happy', 0.1)` |

## Behaviour worth knowing

The model makes these consequences of `main.py` explicit:

- Text that is empty after stripping is rejected with 400, not answered
  `neutral` (main.py:152-155).
- Stripped text longer than 1000 characters is rejected with 400
  (main.py:157-158).
- Keyword scores are divided by the largest per-label count, not by a total
  (main.py:74-76), so the top label always scores exactly 1
  (`KeywordDetection.TopLabelsScoreOne`).
- Ties go to the first entry in insertion order (main.py:116,
  `Dominant.TieGoesToFirstInserted`). For the keyword table that order is
  happy, sad, angry, fear, surprise; for the library mapping it is happy,
  angry, sad, surprise, fear.
- The keyword path never produces all-zero scores for accepted text, so on
  that path the answer is never `neutral` or `calm`
  (`Analyze.KeywordEngineNeverNeutralOrCalm`).

## Left out

- Unicode: `str.lower()`, `str.split()`, `str.strip()` and the regex class `\w` are modelled on ASCII only. Other characters are treated as neither upper-case, nor whitespace, nor word characters, so non-ASCII letters do not lower-case and are not `\w` here. Python's Unicode tables are not re-derived.
- Floating point: scores are exact reals. Python computes `count / max` in binary floating point, which differs from the exact ratio only in the last bits of non-integral results. The `round(…, 3)` applied when building the response (main.py:171-172) is serialisation and is left out.
- `text2emotion` is an opaque parameter. The `getEmotion` function of `Analyze.Engine` stands for `te.get_emotion`, with `None` standing for an exception.
- Analyze.AnalyzeEmotion: for the library engine, the contract only bounds the label set and the reported emotion. The library's scores are not visible, so nothing is said about their range.
- The import probe that sets `USE_TEXT2EMOTION` (main.py:9-15) is process start-up. The model takes the chosen engine as a parameter.
- FastAPI plumbing is out of scope: app construction, CORS, the `/` and `/health` routes, Pydantic request validation, and `uvicorn.run` (main.py:17-38, 125-143, 181-188).
- The generic 500 handler and `print` logging (main.py:106, 175-179) are left out. No modelled step can raise on well-formed input.
- Whole sentences such as "I am feeling great today!" (answered `happy`) or "I hate everything right now" (answered `angry`) are not proved as concrete instances. Their answers follow from `Analyze.KeywordEngineOutcome` once their keyword counts are known.
