/**
 The options of a grep, as leaves_early of scripts/no-reader-leaves-a-pipe-early.sh reads them: its arguments
 cut into words, and the first that makes it leave before its input ends.
 */
module GrepOptions {
  import opened Options
  import opened Text

  // ---- the option that makes a grep leave early -------------------------------------------------

  const LONG := ["quiet", "silent", "max-count", "files-with-matches", "files-without-match"]

  predicate IsSpace(c: char) {
    c == ' ' || '\t' <= c <= '\r' || '\U{1c}' <= c <= '\U{1f}'
  }

  function SpaceEnd(s: string, i: nat, space: bool): (r: nat)
    requires i <= |s|
    ensures i <= r <= |s|
    ensures forall k :: i <= k < r ==> IsSpace(s[k]) == space
    ensures r < |s| ==> IsSpace(s[r]) != space
    decreases |s| - i
  {
    if i < |s| && IsSpace(s[i]) == space then SpaceEnd(s, i + 1, space) else i
  }

  /** The words of s, from i on, as str.split cuts them. */
  function WordsFrom(s: string, i: nat): (r: seq<string>)
    requires i <= |s|
    ensures forall w :: w in r ==> w != ""
    decreases |s| - i
  {
    var a := SpaceEnd(s, i, true);
    if a == |s| then [] else
    var b := SpaceEnd(s, a, false);
    [s[a..b]] + WordsFrom(s, b)
  }

  predicate Leaves(c: char) {
    c == 'q' || c == 'm' || c == 'l' || c == 'L'
  }

  /** The rest of the word is this option's value. */
  predicate TakesRest(c: char) {
    c == 'e' || c == 'f' || c == 'A' || c == 'B' || c == 'C' || c == 'd' || c == 'D'
  }

  /** A cluster of short options holds one that leaves early, before any that takes the rest. */
  predicate ShortLeaves(word: string) {
    exists k :: 1 <= k < |word| && Leaves(word[k]) && forall j :: 1 <= j < k ==> !TakesRest(word[j])
  }

  predicate LongLeaves(word: string)
    requires |word| >= 2
  {
    word[2..Find(word, '=', 2)] in LONG
  }

  predicate LeavesWord(word: string) {
    if "--" <= word then LongLeaves(word) else "-" <= word && ShortLeaves(word)
  }

  /** The first word, before a --, that makes grep leave. */
  function EarlyOption(words: seq<string>): Option<string> {
    if words == [] || words[0] == "--" then None
    else if LeavesWord(words[0]) then Some(words[0])
    else EarlyOption(words[1..])
  }

  method ShortOption(word: string) returns (leaves: bool)
    requires word != ""
    ensures leaves == ShortLeaves(word)
  {
    for k := 1 to |word|
      invariant forall j :: 1 <= j < k ==> !Leaves(word[j]) && !TakesRest(word[j])
    {
      if Leaves(word[k]) {
        return true;
      }
      if TakesRest(word[k]) {
        return false;
      }
    }
    return false;
  }

  /** The function leaves_early. */
  method LeavesEarly(args: string) returns (flag: Option<string>)
    ensures flag == EarlyOption(WordsFrom(args, 0))
  {
    var words := WordsFrom(args, 0);
    for n := 0 to |words|
      invariant EarlyOption(words[n..]) == EarlyOption(words)
    {
      var word := words[n];
      if word == "--" {
        return None;
      }
      if "--" <= word {
        if LongLeaves(word) {
          return Some(word);
        }
      } else if "-" <= word && |word| > 1 {
        var leaves := ShortOption(word);
        if leaves {
          return Some(word);
        }
      }
    }
    return None;
  }

  // ---- the words, and the options, as they are written -------------------------------------------

  /** A blank: what words are separated by. */
  predicate Space(c: char) {
    c in {' ', '\t', '\n', '\U{b}', '\U{c}', '\r', '\U{1c}', '\U{1d}', '\U{1e}', '\U{1f}'}
  }

  predicate Spaces(s: string) {
    forall k :: 0 <= k < |s| ==> Space(s[k])
  }

  predicate IsWord(w: string) {
    w != "" && forall k :: 0 <= k < |w| ==> !Space(w[k])
  }

  /** Words with blanks before, between and after them. */
  datatype Spaced = End(gap: string) | Then(gap: string, word: string, rest: Spaced)

  predicate Apart(sp: Spaced) {
    Spaces(sp.gap) && (sp.Then? ==> IsWord(sp.word) && Apart(sp.rest) && (sp.rest.Then? ==> sp.rest.gap != ""))
  }

  function Typed(sp: Spaced): string {
    match sp
    case End(gap) => gap
    case Then(gap, word, rest) => gap + (word + Typed(rest))
  }

  function WordsOf(sp: Spaced): seq<string> {
    match sp
    case End(_) => []
    case Then(_, word, rest) => [word] + WordsOf(rest)
  }

  /** The text is these words, with blanks before, between and after them. */
  ghost predicate Reads(s: string, words: seq<string>) {
    exists sp :: Apart(sp) && Typed(sp) == s && WordsOf(sp) == words
  }

  lemma RunEnds(s: string, i: nat, run: string, rest: string, space: bool)
    requires i <= |s| && s[i..] == run + rest
    requires forall k :: 0 <= k < |run| ==> Space(run[k]) == space
    requires rest != "" ==> Space(rest[0]) != space
    ensures SpaceEnd(s, i, space) == i + |run| && s[i..i + |run|] == run && s[i + |run|..] == rest
  {
    var t := s[i..];
    forall k | i <= k < i + |run| ensures IsSpace(s[k]) == space {
      assert s[k] == t[k - i] == run[k - i];
    }
    assert rest != "" ==> s[i + |run|] == t[|run|] == rest[0];
    assert s[i..i + |run|] == t[..|run|] && s[i + |run|..] == t[|run|..];
  }

  lemma SpacesTo(line: string, i: nat)
    requires i <= |line|
    ensures var e := SpaceEnd(line, i, true); Spaces(line[i..e]) && (line[e..] != "" ==> !Space(line[e..][0]))
  {
  }

  /** A gap and a word, cut off. */
  lemma WordCut(s: string, i: nat, a: nat, b: nat)
    requires i <= |s| && a == SpaceEnd(s, i, true) < |s| && b == SpaceEnd(s, a, false)
    ensures WordsFrom(s, i) == [s[a..b]] + WordsFrom(s, b)
  {
  }

  /** A gap, a word, and what follows them. */
  lemma WordThen(s: string, i: nat, gap: string, w: string, rest: string, a: nat, b: nat)
    requires i <= |s| && s[i..] == gap + (w + rest) && a == i + |gap| && b == a + |w|
    requires Spaces(gap) && IsWord(w) && (rest != "" ==> Space(rest[0]))
    ensures b <= |s| && s[b..] == rest && WordsFrom(s, i) == [w] + WordsFrom(s, b)
  {
    FirstRun(s, i, gap, w, w + rest, a);
    RunEnds(s, a, w, rest, false);
    WordCut(s, i, a, b);
  }

  lemma FirstRun(s: string, i: nat, gap: string, w: string, tail: string, a: nat)
    requires i <= |s| && s[i..] == gap + tail && a == i + |gap| && Spaces(gap) && IsWord(w) && w <= tail
    ensures a < |s| && SpaceEnd(s, i, true) == a && s[a..] == tail
  {
    assert tail[0] == w[0] && !Space(w[0]);
    RunEnds(s, i, gap, tail, true);
  }

  lemma NoWords(s: string, i: nat, gap: string)
    requires i <= |s| && s[i..] == gap && Spaces(gap)
    ensures WordsFrom(s, i) == []
  {
    assert gap + "" == gap;
    RunEnds(s, i, gap, "", true);
  }

  lemma {:induction false} WordsAre(s: string, i: nat, sp: Spaced)
    requires i <= |s| && Apart(sp) && s[i..] == Typed(sp)
    ensures WordsFrom(s, i) == WordsOf(sp)
    decreases sp, 0
  {
    match sp
    case End(gap) => NoWords(s, i, gap);
    case Then(gap, word, rest) => WordsMore(s, i, gap, word, rest, Typed(rest));
  }

  lemma {:induction false} WordsMore(s: string, i: nat, gap: string, word: string, rest: Spaced, tail: string)
    requires i <= |s| && Spaces(gap) && IsWord(word) && Apart(rest) && (rest.Then? ==> rest.gap != "")
    requires s[i..] == gap + (word + tail) && tail == Typed(rest)
    ensures WordsFrom(s, i) == [word] + WordsOf(rest)
    decreases rest, 1
  {
    var b := i + |gap| + |word|;
    StartsApart(rest);
    WordThen(s, i, gap, word, tail, i + |gap|, b);
    WordsAre(s, b, rest);
  }

  /** What comes after a word begins with a blank, if anything does. */
  lemma StartsApart(sp: Spaced)
    requires Apart(sp) && (sp.Then? ==> sp.gap != "")
    ensures Typed(sp) != "" ==> Space(Typed(sp)[0])
  {
  }

  lemma {:induction false} WordsTyped(s: string, i: nat) returns (sp: Spaced)
    requires i <= |s|
    ensures Apart(sp) && Typed(sp) == s[i..] && WordsOf(sp) == WordsFrom(s, i)
    ensures i < |s| && Space(s[i]) && sp.Then? ==> sp.gap != ""
    decreases |s| - i
  {
    var a := SpaceEnd(s, i, true);
    if a == |s| {
      sp := End(s[i..]);
    } else {
      var b := SpaceEnd(s, a, false);
      var rest := WordsTyped(s, b);
      WordCut(s, i, a, b);
      sp := Then(s[i..a], s[a..b], rest);
      TypedThen(s, i, a, b, rest);
    }
  }

  lemma WordPieces(s: string, i: nat, a: nat, b: nat)
    requires i <= |s| && a == SpaceEnd(s, i, true) < |s| && b == SpaceEnd(s, a, false)
    ensures Spaces(s[i..a]) && IsWord(s[a..b]) && s[i..] == s[i..a] + (s[a..b] + s[b..])
    ensures b < |s| ==> Space(s[b])
  {
    CutThree(s, i, a, b);
    SpacesTo(s, i);
    assert forall k :: 0 <= k < b - a ==> s[a..b][k] == s[a + k] && !Space(s[a + k]);
  }

  lemma CutThree(s: string, i: nat, a: nat, b: nat)
    requires i <= a <= b <= |s|
    ensures s[i..] == s[i..a] + (s[a..b] + s[b..])
  {
  }

  lemma SomeTyped(sp: Spaced)
    requires sp.Then? && sp.word != ""
    ensures Typed(sp) != ""
  {
  }

  lemma TypedThen(s: string, i: nat, a: nat, b: nat, rest: Spaced)
    requires i <= |s| && a == SpaceEnd(s, i, true) < |s| && b == SpaceEnd(s, a, false)
    requires Apart(rest) && Typed(rest) == s[b..] && (b < |s| && Space(s[b]) && rest.Then? ==> rest.gap != "")
    ensures Apart(Then(s[i..a], s[a..b], rest)) && Typed(Then(s[i..a], s[a..b], rest)) == s[i..]
  {
    WordPieces(s, i, a, b);
    if rest.Then? {
      SomeTyped(rest);
    }
  }

  /** The words that the arguments are cut into are those they are written with, whatever the blanks. */
  lemma WordsIff(s: string, words: seq<string>)
    ensures WordsFrom(s, 0) == words <==> Reads(s, words)
  {
    assert s[0..] == s;
    if WordsFrom(s, 0) == words {
      var sp := WordsTyped(s, 0);
    }
    if Reads(s, words) {
      var sp :| Apart(sp) && Typed(sp) == s && WordsOf(sp) == words;
      WordsAre(s, 0, sp);
    }
  }

  /** A long option by its name, with a value or without. */
  predicate LongIs(word: string, name: string) {
    word == "--" + name || "--" + name + "=" <= word
  }

  /** A word that makes grep leave before its input ends. */
  predicate MakesLeave(word: string) {
    || LongIs(word, "quiet") || LongIs(word, "silent") || LongIs(word, "max-count")
    || LongIs(word, "files-with-matches") || LongIs(word, "files-without-match")
    || (|word| >= 2 && word[0] == '-' && word[1] != '-' && exists k :: 1 <= k < |word| && DecidesAt(word, k))
  }

  /** An early letter of a cluster, before any that takes the rest of the word. */
  predicate DecidesAt(word: string, k: nat)
    requires 1 <= k < |word|
  {
    word[k] in {'q', 'm', 'l', 'L'} && forall j :: 1 <= j < k ==> word[j] !in {'e', 'f', 'A', 'B', 'C', 'd', 'D'}
  }

  lemma LongStarts(word: string, name: string)
    requires LongIs(word, name)
    ensures |word| >= |name| + 2 && word[0] == '-' && word[1] == '-' && word[2..2 + |name|] == name
    ensures |word| == |name| + 2 || word[2 + |name|] == '='
  {
    var w := "--" + name + "=";
    assert w[2..2 + |name|] == name && (w <= word ==> word[..|w|] == w);
    if word != "--" + name {
      assert word[2..2 + |name|] == word[..|w|][2..2 + |name|];
      assert word[0] == word[..|w|][0] && word[1] == word[..|w|][1] && word[2 + |name|] == word[..|w|][2 + |name|];
    }
  }

  lemma LongIff(word: string, name: string)
    requires "--" <= word && '=' !in name
    ensures word[2..Find(word, '=', 2)] == name <==> LongIs(word, name)
  {
    var e := Find(word, '=', 2);
    if word[2..e] == name {
      assert word == "--" + name + word[e..];
    }
    if LongIs(word, name) {
      LongStarts(word, name);
      assert forall k :: 2 <= k < 2 + |name| ==> word[k] == word[2..2 + |name|][k - 2];
    }
  }

  lemma LeavesByName(word: string)
    requires "--" <= word
    ensures LongLeaves(word) <==>
      || LongIs(word, "quiet") || LongIs(word, "silent") || LongIs(word, "max-count")
      || LongIs(word, "files-with-matches") || LongIs(word, "files-without-match")
  {
    var given := word[2..Find(word, '=', 2)];
    assert given in LONG <==>
      given == "quiet" || given == "silent" || given == "max-count"
      || given == "files-with-matches" || given == "files-without-match";
    LongIff(word, "quiet");
    LongIff(word, "silent");
    LongIff(word, "max-count");
    LongIff(word, "files-with-matches");
    LongIff(word, "files-without-match");
  }

  lemma NotLong(word: string, name: string)
    requires !("--" <= word)
    ensures !LongIs(word, name)
  {
    if LongIs(word, name) {
      LongStarts(word, name);
    }
  }

  lemma ShortIff(word: string)
    ensures ShortLeaves(word) <==> exists k :: 1 <= k < |word| && DecidesAt(word, k)
  {
    forall k | 1 <= k < |word| && Leaves(word[k]) && forall j :: 1 <= j < k ==> !TakesRest(word[j])
      ensures DecidesAt(word, k)
    {
    }
    forall k | 1 <= k < |word| && DecidesAt(word, k)
      ensures Leaves(word[k]) && forall j :: 1 <= j < k ==> !TakesRest(word[j])
    {
    }
  }

  /** Each word is judged as it is written. */
  lemma LeavesIff(word: string)
    ensures LeavesWord(word) <==> MakesLeave(word)
  {
    if "--" <= word {
      LeavesByName(word);
    } else {
      NotLong(word, "quiet");
      NotLong(word, "silent");
      NotLong(word, "max-count");
      NotLong(word, "files-with-matches");
      NotLong(word, "files-without-match");
      ShortIff(word);
    }
  }

  /** This word makes grep leave, and no word before it does, or ends the options. */
  ghost predicate FirstEarly(words: seq<string>, w: string) {
    exists n :: 0 <= n < |words| && words[n] == w && MakesLeave(w) && NoneBefore(words, n)
  }

  ghost predicate NoneBefore(words: seq<string>, n: nat)
    requires n <= |words|
  {
    forall j :: 0 <= j < n ==> words[j] != "--" && !MakesLeave(words[j])
  }

  lemma {:induction false} EarlyIsFirst(words: seq<string>, w: string)
    ensures EarlyOption(words) == Some(w) <==> FirstEarly(words, w)
  {
    if words != [] {
      LeavesIff(words[0]);
      EarlyIsFirst(words[1..], w);
      FirstMore(words, w);
    }
  }

  lemma FirstMore(words: seq<string>, w: string)
    requires words != []
    ensures FirstEarly(words, w) <==>
      if MakesLeave(words[0]) then w == words[0] else words[0] != "--" && FirstEarly(words[1..], w)
  {
    var rest := words[1..];
    if MakesLeave(words[0]) {
      assert NoneBefore(words, 0);
    } else if words[0] != "--" && FirstEarly(rest, w) {
      var n :| 0 <= n < |rest| && rest[n] == w && MakesLeave(w) && NoneBefore(rest, n);
      assert words[n + 1] == w && forall j :: 1 <= j < n + 1 ==> words[j] == rest[j - 1];
    }
    if FirstEarly(words, w) && !MakesLeave(words[0]) {
      var n :| 0 <= n < |words| && words[n] == w && MakesLeave(w) && NoneBefore(words, n);
      assert rest[n - 1] == w && forall j :: 0 <= j < n - 1 ==> rest[j] == words[j + 1];
    }
  }

  /**
   However the arguments are spaced: an option is reported exactly when one of their words makes grep
   leave, and it is the first such word, with no -- before it.
   */
  lemma EarlyOptionIsFirst(args: string, words: seq<string>, w: string)
    requires Reads(args, words)
    ensures EarlyOption(WordsFrom(args, 0)) == Some(w) <==> FirstEarly(words, w)
  {
    WordsIff(args, words);
    EarlyIsFirst(words, w);
  }
}
