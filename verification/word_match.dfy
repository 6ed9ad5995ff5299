/**
  Counting the matches of the regular expression `\b kw \b` in a text, the way
  `len(re.findall(r'\b' + re.escape(kw) + r'\b', text))` does it, and the
  proof that this is exactly the number of places where `kw` stands in the text
  as a whole word.
 */
module WordMatch {
  import opened PyText

  predicate AllWordChars(s: string) {
    forall i :: 0 <= i < |s| ==> IsWordChar(s[i])
  }

  /** A detector keyword: a non-empty run of word characters, so `re.escape`
      leaves it unchanged and the pattern never matches the empty string. */
  type Keyword = s: string | |s| > 0 && AllWordChars(s) witness "a"

  /** The regex assertion `\b` at position `p` of `t`: one side of `p` is a word
      character and the other is not (outside the text counts as not). */
  predicate Boundary(t: string, p: nat)
    requires p <= |t|
  {
    (p > 0 && IsWordChar(t[p - 1])) != (p < |t| && IsWordChar(t[p]))
  }

  /** The pattern `\b kw \b` matches `t` starting at `p`. */
  predicate MatchAt(t: string, kw: string, p: nat)
    requires p <= |t|
  {
    p + |kw| <= |t| && Boundary(t, p) && t[p..p + |kw|] == kw && Boundary(t, p + |kw|)
  }

  /** The scan of `re.findall` from position `p`: try each position from left
      to right, and after a match resume where the match ended. The matches
      never overlap, so they fit side by side in what is left of the text, and
      a stretch of whitespace holds none. */
  function FindAllFrom(t: string, kw: Keyword, p: nat): (n: nat)
    requires p <= |t|
    ensures n * |kw| <= |t| - p
    ensures (forall i :: p <= i < |t| ==> IsSpace(t[i])) ==> n == 0
    decreases |t| - p
  {
    if p == |t| then 0
    else if MatchAt(t, kw, p) then
      assert t[p] == t[p..p + |kw|][0];
      1 + FindAllFrom(t, kw, p + |kw|)
    else FindAllFrom(t, kw, p + 1)
  }

  /** `len(re.findall(r'\b' + kw + r'\b', t))`. */
  function FindAll(t: string, kw: Keyword): (n: nat)
    ensures n * |kw| <= |t|
    ensures AllSpace(t) ==> n == 0
  {
    FindAllFrom(t, kw, 0)
  }

  /** `kw` stands in `t` at `p` as a whole word: the text there is `kw`, and
      neither the character before nor the one after is a word character. */
  predicate WholeWordAt(t: string, kw: string, p: nat)
    requires p <= |t|
  {
    && p + |kw| <= |t|
    && t[p..p + |kw|] == kw
    && (p == 0 || !IsWordChar(t[p - 1]))
    && (p + |kw| == |t| || !IsWordChar(t[p + |kw|]))
  }

  /** The number of positions at or after `p` where `kw` stands as a whole word. */
  function WholeWordsFrom(t: string, kw: string, p: nat): nat
    requires p <= |t|
    decreases |t| - p
  {
    if p == |t| then 0
    else (if WholeWordAt(t, kw, p) then 1 else 0) + WholeWordsFrom(t, kw, p + 1)
  }

  function CountWholeWords(t: string, kw: string): nat {
    WholeWordsFrom(t, kw, 0)
  }

  /** For a keyword made of word characters, `\b kw \b` matches exactly where
      `kw` stands as a whole word. */
  lemma MatchAtIsWholeWord(t: string, kw: Keyword, p: nat)
    requires p <= |t|
    ensures MatchAt(t, kw, p) <==> WholeWordAt(t, kw, p)
  {
    if p + |kw| <= |t| && t[p..p + |kw|] == kw {
      assert t[p] == kw[0];
      assert t[p + |kw| - 1] == kw[|kw| - 1];
    }
  }

  /** Two whole-word occurrences of a keyword never overlap: inside one, every
      position is preceded by a word character. */
  lemma NoWholeWordInside(t: string, kw: Keyword, p: nat, q: nat)
    requires p <= |t| && WholeWordAt(t, kw, p)
    requires p < q < p + |kw|
    ensures !WholeWordAt(t, kw, q)
  {
    assert t[q - 1] == t[p..p + |kw|][q - 1 - p];
  }

  lemma {:induction false} SkipOccurrence(t: string, kw: Keyword, p: nat, q: nat)
    requires p <= |t| && WholeWordAt(t, kw, p)
    requires p < q <= p + |kw|
    ensures WholeWordsFrom(t, kw, p + 1) == WholeWordsFrom(t, kw, q)
    decreases q
  {
    if q > p + 1 {
      SkipOccurrence(t, kw, p, q - 1);
      NoWholeWordInside(t, kw, p, q - 1);
    }
  }

  /** The regex scan counts every whole-word occurrence of the keyword, and
      nothing else. */
  lemma {:induction false} FindAllFromCountsWholeWords(t: string, kw: Keyword, p: nat)
    requires p <= |t|
    ensures FindAllFrom(t, kw, p) == WholeWordsFrom(t, kw, p)
    decreases |t| - p
  {
    if p < |t| {
      MatchAtIsWholeWord(t, kw, p);
      if MatchAt(t, kw, p) {
        FindAllFromCountsWholeWords(t, kw, p + |kw|);
        SkipOccurrence(t, kw, p, p + |kw|);
      } else {
        FindAllFromCountsWholeWords(t, kw, p + 1);
      }
    }
  }

  lemma FindAllCountsWholeWords(t: string, kw: Keyword)
    ensures FindAll(t, kw) == CountWholeWords(t, kw)
  {
    FindAllFromCountsWholeWords(t, kw, 0);
  }

  /** A keyword glued to other letters is not counted: "sad" in "sadness". */
  lemma SadnessHasNoSad()
    ensures FindAll("sadness", "sad") == 0
  {
    assert !MatchAt("sadness", "sad", 0);
  }

  /** "mad" at the end of "nomad" is preceded by a letter, so it is not counted. */
  lemma NomadHasNoMad()
    ensures FindAll("nomad", "mad") == 0
  {
    assert !MatchAt("nomad", "mad", 2);
  }

  /** Punctuation and spaces are boundaries: "sad" counts twice in "sad, so sad!". */
  lemma PunctuationBoundsWords()
    ensures FindAll("sad, so sad!", "sad") == 2
  {
    var t := "sad, so sad!";
    assert t[0..3] == "sad";
    assert MatchAt(t, "sad", 0);
    assert t[8..11] == "sad";
    assert MatchAt(t, "sad", 8);
    assert FindAllFrom(t, "sad", 11) == 0;
    assert FindAllFrom(t, "sad", 8) == 1;
    assert !MatchAt(t, "sad", 7) && !MatchAt(t, "sad", 6) && !MatchAt(t, "sad", 5);
    assert !MatchAt(t, "sad", 4) && !MatchAt(t, "sad", 3);
    assert FindAllFrom(t, "sad", 3) == 1;
  }
}
