/** Strings as the scripts and the Go code read them: searching, character classes, slices. */
module Text {

  function Min(a: int, b: int): int {
    if a < b then a else b
  }

  /** The first position of c at or after from, or the length of the text when there is none. */
  function Find(text: string, c: char, from: nat): (r: nat)
    ensures r <= |text|
    ensures from <= |text| ==> from <= r
    ensures forall k :: from <= k < r ==> text[k] != c
    ensures r < |text| ==> from <= r && text[r] == c
    decreases |text| - from
  {
    if from >= |text| then |text|
    else if text[from] == c then from
    else Find(text, c, from + 1)
  }

  /** p stands in text at position i. */
  predicate At(text: string, i: nat, p: string) {
    i + |p| <= |text| && text[i..i + |p|] == p
  }

  /** The characters a and b stand at i. */
  predicate Two(text: string, i: nat, a: char, b: char) {
    i + 1 < |text| && text[i] == a && text[i + 1] == b
  }

  predicate Three(text: string, i: nat, a: char, b: char, c: char) {
    i + 2 < |text| && text[i] == a && text[i + 1] == b && text[i + 2] == c
  }

  predicate IsAlpha(c: char) {
    'a' <= c <= 'z' || 'A' <= c <= 'Z'
  }

  predicate IsDigit(c: char) {
    '0' <= c <= '9'
  }

  predicate IsWordChar(c: char) {
    IsAlpha(c) || IsDigit(c) || c == '_'
  }

  /** The end of the longest run of word characters that starts at i. */
  function WordEnd(text: string, i: nat): (r: nat)
    requires i <= |text|
    ensures i <= r <= |text|
    ensures forall k :: i <= k < r ==> IsWordChar(text[k])
    ensures r < |text| ==> !IsWordChar(text[r])
    decreases |text| - i
  {
    if i == |text| || !IsWordChar(text[i]) then i else WordEnd(text, i + 1)
  }

  /** How many times c stands in s. */
  function Count(s: string, c: char): nat {
    if s == "" then 0 else (if s[0] == c then 1 else 0) + Count(s[1..], c)
  }

  /** A text found at i, cut in two. */
  lemma AtSplit(text: string, i: nat, p: string, q: string)
    requires At(text, i, p + q)
    ensures At(text, i, p) && At(text, i + |p|, q)
  {
    var w := text[i..i + |p + q|];
    assert w[..|p|] == p && w[|p|..] == q;
    assert text[i..i + |p|] == w[..|p|];
    assert text[i + |p|..i + |p| + |q|] == w[|p|..];
  }

  /** Every character of a text found at i, one by one. */
  lemma AtChars(text: string, i: nat, p: string)
    requires At(text, i, p)
    ensures forall k :: 0 <= k < |p| ==> text[i + k] == p[k]
  {
    forall k | 0 <= k < |p| ensures text[i + k] == p[k] {
      assert text[i..i + |p|][k] == text[i + k];
    }
  }
}
