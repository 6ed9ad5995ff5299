/**
  The string primitives the emotion detector relies on: `str.lower()`,
  `str.split()` (only the number of words it yields is ever used),
  `str.strip()` and the regex character class `\w`. Python defines these over
  the whole Unicode repertoire; this model restricts them to ASCII, where their
  behaviour is the familiar one, and treats every other character as neither
  upper-case, nor whitespace, nor a word character.
 */
module PyText {

  /** A character `str.isspace()` accepts (the separators of `split()` and
      `strip()`): space, `\t \n \v \f \r`, and the ASCII separators 0x1C-0x1F. */
  predicate IsSpace(c: char) {
    c == ' ' || ('\t' <= c <= '\r') || ('\U{1C}' <= c <= '\U{1F}')
  }

  /** A character of the regex class `\w`. */
  predicate IsWordChar(c: char) {
    ('a' <= c <= 'z') || ('A' <= c <= 'Z') || ('0' <= c <= '9') || c == '_'
  }

  predicate IsUpper(c: char) {
    'A' <= c <= 'Z'
  }

  predicate AllSpace(t: string) {
    forall i :: 0 <= i < |t| ==> IsSpace(t[i])
  }

  predicate NoUpper(t: string) {
    forall i :: 0 <= i < |t| ==> !IsUpper(t[i])
  }

  /** The lower-case form of one character: 'A'..'Z' move 32 code points down
      the table to 'a'..'z', and every other character stays as it is. */
  function LowerChar(c: char): (d: char)
    ensures !IsUpper(d)
    ensures IsSpace(d) == IsSpace(c)
    ensures IsWordChar(d) == IsWordChar(c)
    ensures !IsUpper(c) ==> d == c
    ensures IsUpper(c) ==> d as int == c as int + 32
  {
    if IsUpper(c) then (c as int + ('a' as int - 'A' as int)) as char else c
  }

  /** `t.lower()`: each capital 'A'..'Z' becomes its small letter, every other
      character is kept, so no upper-case letter is left and neither whitespace
      nor word characters are created or destroyed. */
  function Lower(t: string): (r: string)
    ensures |r| == |t|
    ensures forall i :: 0 <= i < |t| && !IsUpper(t[i]) ==> r[i] == t[i]
    ensures forall i :: 0 <= i < |t| && IsUpper(t[i]) ==> r[i] as int == t[i] as int + 32
    ensures NoUpper(r)
    ensures forall i :: 0 <= i < |t| ==> IsSpace(r[i]) == IsSpace(t[i])
    ensures forall i :: 0 <= i < |t| ==> IsWordChar(r[i]) == IsWordChar(t[i])
  {
    seq(|t|, i requires 0 <= i < |t| => LowerChar(t[i]))
  }

  /** Lower-casing text that has no upper-case letter changes nothing. */
  lemma LowerOfLowercase(t: string)
    requires NoUpper(t)
    ensures Lower(t) == t
  {
  }

  lemma LowerIdempotent(t: string)
    ensures Lower(Lower(t)) == Lower(t)
  {
    LowerOfLowercase(Lower(t));
  }

  /** A word of `split()` begins at `i`: a non-space character that is first
      or follows a space. */
  predicate WordStartsAt(t: string, i: nat)
    requires i < |t|
  {
    !IsSpace(t[i]) && (i == 0 || IsSpace(t[i - 1]))
  }

  /** `len(t.split())`: the number of maximal runs of non-space characters.
      It is zero exactly when `t` is empty or all whitespace. */
  function WordCount(t: string): (n: nat)
    ensures n == 0 <==> AllSpace(t)
    ensures n <= |t|
    decreases |t|
  {
    if |t| == 0 then 0
    else WordCount(t[..|t| - 1]) + (if WordStartsAt(t, |t| - 1) then 1 else 0)
  }

  /** Lower-casing does not change how many words `split()` finds. */
  lemma {:induction false} WordCountOfLower(t: string)
    ensures WordCount(Lower(t)) == WordCount(t)
    decreases |t|
  {
    if |t| > 0 {
      var n := |t| - 1;
      assert Lower(t)[..n] == Lower(t[..n]);
      WordCountOfLower(t[..n]);
    }
  }

  /** The first non-space index at or after `i` (or `|t|`): where
      `lstrip()` cuts. */
  function SkipSpaces(t: string, i: nat): (k: nat)
    requires i <= |t|
    ensures i <= k <= |t|
    ensures forall j :: i <= j < k ==> IsSpace(t[j])
    ensures k < |t| ==> !IsSpace(t[k])
    decreases |t| - i
  {
    if i < |t| && IsSpace(t[i]) then SkipSpaces(t, i + 1) else i
  }

  /** The end of `t[lo..e]` once its trailing whitespace is cut: where
      `rstrip()` cuts. */
  function SkipSpacesBack(t: string, lo: nat, e: nat): (k: nat)
    requires lo <= e <= |t|
    ensures lo <= k <= e
    ensures forall j :: k <= j < e ==> IsSpace(t[j])
    ensures k > lo ==> !IsSpace(t[k - 1])
    decreases e
  {
    if e > lo && IsSpace(t[e - 1]) then SkipSpacesBack(t, lo, e - 1) else e
  }

  /** `r` is the slice of `t` at `i`, and all of `t` outside it is whitespace. */
  predicate TrimmedSlice(t: string, i: nat, r: string) {
    && i + |r| <= |t|
    && r == t[i..i + |r|]
    && (forall j :: 0 <= j < i ==> IsSpace(t[j]))
    && (forall j :: i + |r| <= j < |t| ==> IsSpace(t[j]))
  }

  /** `t.strip()`: the slice of `t` left once the whitespace at both ends is
      cut; it is empty exactly when `t` is all whitespace. */
  function Strip(t: string): (r: string)
    ensures |r| == 0 <==> AllSpace(t)
    ensures |r| > 0 ==> !IsSpace(r[0]) && !IsSpace(r[|r| - 1])
    ensures exists i :: TrimmedSlice(t, i, r)
  {
    var start := SkipSpaces(t, 0);
    var end := SkipSpacesBack(t, start, |t|);
    assert TrimmedSlice(t, start, t[start..end]);
    t[start..end]
  }

  /** Stripping twice is the same as stripping once. */
  lemma StripIdempotent(t: string)
    ensures Strip(Strip(t)) == Strip(t)
  {
    var r := Strip(t);
    if |r| > 0 {
      assert SkipSpaces(r, 0) == 0;
      assert SkipSpacesBack(r, 0, |r|) == |r|;
      assert r[0..|r|] == r;
    }
  }
}
