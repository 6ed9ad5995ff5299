/**
  The `Dict[str, float]` of per-label emotion scores, kept as a list of
  entries in insertion order: Python dictionaries remember the order in which
  keys were first inserted, and the dominant emotion depends on it when scores
  tie.
 */
module EmotionScores {

  datatype Entry = Entry(emotion: string, score: real)

  type Scores = seq<Entry>

  function KeysOf(s: Scores): seq<string> {
    seq(|s|, i requires 0 <= i < |s| => s[i].emotion)
  }

  predicate DistinctKeys(s: Scores) {
    forall i, j :: 0 <= i < j < |s| ==> s[i].emotion != s[j].emotion
  }

  predicate AllZero(s: Scores) {
    forall i :: 0 <= i < |s| ==> s[i].score == 0.0
  }

  /** `d.get(key, default)`: the score stored under `key`, or `default` when
      no entry holds it. */
  function Get(s: Scores, key: string, default: real): (v: real)
    ensures (forall i :: 0 <= i < |s| ==> s[i].emotion != key) ==> v == default
    ensures forall i ::
              (0 <= i < |s| && s[i].emotion == key && forall j :: 0 <= j < i ==> s[j].emotion != key)
              ==> v == s[i].score
    decreases |s|
  {
    if |s| == 0 then default
    else if s[0].emotion == key then s[0].score
    else Get(s[1..], key, default)
  }

  /** With distinct keys, every entry's key reads back that entry's score. */
  lemma GetReadsOwnKey(s: Scores, i: nat, d: real)
    requires DistinctKeys(s) && i < |s|
    ensures Get(s, s[i].emotion, d) == s[i].score
  {
    assert forall j :: 0 <= j < i ==> s[j].emotion != s[i].emotion;
  }

  /** `d[key] = v`: an existing key keeps its place and takes the new value,
      a new key goes at the end. */
  function SetScore(s: Scores, key: string, v: real): (r: Scores)
    requires DistinctKeys(s)
    ensures DistinctKeys(r)
    ensures key in KeysOf(s) ==> KeysOf(r) == KeysOf(s)
    ensures key !in KeysOf(s) ==> KeysOf(r) == KeysOf(s) + [key]
    decreases |s|
  {
    if |s| == 0 then [Entry(key, v)]
    else if s[0].emotion == key then
      assert KeysOf(s)[0] == key;
      [Entry(key, v)] + s[1..]
    else
      var tail := SetScore(s[1..], key, v);
      assert KeysOf(s) == [s[0].emotion] + KeysOf(s[1..]);
      assert KeysOf([s[0]] + tail) == [s[0].emotion] + KeysOf(tail);
      assert forall j :: 0 <= j < |tail| ==> tail[j].emotion == KeysOf(tail)[j];
      assert s[0].emotion !in KeysOf(tail);
      [s[0]] + tail
  }

  /** After `d[key] = v`, `key` reads as `v` and every other key reads as before. */
  lemma {:induction false} SetScoreReads(s: Scores, key: string, v: real, k: string, d: real)
    requires DistinctKeys(s)
    ensures Get(SetScore(s, key, v), key, d) == v
    ensures k != key ==> Get(SetScore(s, key, v), k, d) == Get(s, k, d)
    decreases |s|
  {
    if |s| > 0 && s[0].emotion != key {
      SetScoreReads(s[1..], key, v, k, d);
      assert SetScore(s, key, v)[1..] == SetScore(s[1..], key, v);
    }
  }

  /** `k` is the first index holding the largest score. */
  predicate IsFirstMax(s: Scores, k: int) {
    && 0 <= k < |s|
    && (forall j :: 0 <= j < |s| ==> s[j].score <= s[k].score)
    && (forall j :: 0 <= j < k ==> s[j].score < s[k].score)
  }

  /** The entry `max(d.items(), key=lambda x: x[1])` picks: Python's `max`
      scans from the left and replaces its candidate only by a strictly larger
      score, so it lands on the first maximal entry. */
  function MaxIndex(s: Scores): (k: nat)
    requires |s| > 0
    ensures IsFirstMax(s, k)
    decreases |s|
  {
    if |s| == 1 then 0
    else
      var k := MaxIndex(s[..|s| - 1]);
      if s[|s| - 1].score > s[k].score then |s| - 1 else k
  }

  /** There is only one first maximal entry. */
  lemma FirstMaxUnique(s: Scores, k1: int, k2: int)
    requires IsFirstMax(s, k1) && IsFirstMax(s, k2)
    ensures k1 == k2
  {
    assert s[k1].score <= s[k2].score <= s[k1].score;
  }

  /** `max(d.values())`: an upper bound of every score that some entry attains. */
  function MaxValue(s: Scores): (m: real)
    requires |s| > 0
    ensures forall i :: 0 <= i < |s| ==> s[i].score <= m
    ensures exists i :: 0 <= i < |s| && s[i].score == m
  {
    s[MaxIndex(s)].score
  }
}
