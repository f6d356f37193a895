/**
 What the script does with a masked text: it finds the greps at the end of a pipe that leave early, and
 names the file line of every finding, in a shell file or in the script of a workflow's step.
 */
module Pipes {
  import opened Options
  import opened Text
  import opened Masker
  import opened MaskerShape
  import opened GrepOptions
  import opened WorkflowSteps

  // ---- readers ----------------------------------------------------------------------------------

  /** A match of the reader pattern: where it starts, and the arguments of its grep. */
  datatype Match = Match(start: nat, args: string)

  datatype Reader = Reader(at: nat, flag: string)

  /** What the pattern promises: every match starts at a pipe. */
  predicate AtPipes(masked: string, ms: seq<Match>) {
    forall n :: 0 <= n < |ms| ==> ms[n].start < |masked| && masked[ms[n].start] == '|'
  }

  function ReadersIn(ms: seq<Match>): seq<Reader> {
    if ms == [] then [] else
    match EarlyOption(WordsFrom(ms[0].args, 0))
    case Some(flag) => [Reader(ms[0].start, flag)] + ReadersIn(ms[1..])
    case None => ReadersIn(ms[1..])
  }

  lemma {:induction false} ReadersSplit(a: seq<Match>, b: seq<Match>)
    ensures ReadersIn(a + b) == ReadersIn(a) + ReadersIn(b)
  {
    if a == [] {
      assert a + b == b;
    } else {
      assert (a + b)[1..] == a[1..] + b;
      ReadersSplit(a[1..], b);
    }
  }

  /** The function readers. */
  method Readers(ms: seq<Match>) returns (found: seq<Reader>)
    ensures found == ReadersIn(ms)
  {
    found := [];
    for n := 0 to |ms|
      invariant found == ReadersIn(ms[..n])
    {
      var flag := LeavesEarly(ms[n].args);
      ReadersSplit(ms[..n], [ms[n]]);
      assert ms[..n + 1] == ms[..n] + [ms[n]];
      if flag.Some? {
        found := found + [Reader(ms[n].start, flag.value)];
      }
    }
    assert ms[..|ms|] == ms;
  }

  lemma {:induction false} ReadersAtPipes(masked: string, ms: seq<Match>, r: Reader)
    requires AtPipes(masked, ms) && r in ReadersIn(ms)
    ensures r.at < |masked| && masked[r.at] == '|'
  {
    if !(EarlyOption(WordsFrom(ms[0].args, 0)).Some? && r == ReadersIn(ms)[0]) {
      ReadersAtPipes(masked, ms[1..], r);
    }
  }

  /** The match is of a grep that leaves early, by this option. */
  ghost predicate Reports(m: Match, flag: string) {
    exists words :: Reads(m.args, words) && FirstEarly(words, flag)
  }

  lemma ReportsIff(m: Match, flag: string)
    ensures EarlyOption(WordsFrom(m.args, 0)) == Some(flag) <==> Reports(m, flag)
  {
    var words := WordsFrom(m.args, 0);
    WordsIff(m.args, words);
    EarlyOptionIsFirst(m.args, words, flag);
    forall other | Reads(m.args, other) ensures other == words {
      WordsIff(m.args, other);
    }
  }

  ghost predicate Found(ms: seq<Match>, r: Reader) {
    exists m :: m in ms && m.start == r.at && Reports(m, r.flag)
  }

  /** Exactly those are found, each where its match starts and with its own option. */
  lemma {:induction false} ReadersAre(ms: seq<Match>, r: Reader)
    ensures r in ReadersIn(ms) <==> Found(ms, r)
  {
    if ms != [] {
      ReadersAre(ms[1..], r);
      ReportsIff(ms[0], r.flag);
      assert ms == [ms[0]] + ms[1..];
      if Found(ms, r) && !(ms[0].start == r.at && Reports(ms[0], r.flag)) {
        var m :| m in ms && m.start == r.at && Reports(m, r.flag);
        assert m in ms[1..];
      }
    }
  }

  /** Each match begins past the one before it. */
  predicate Ascending(ms: seq<Match>) {
    forall n, m :: 0 <= n < m < |ms| ==> ms[n].start < ms[m].start
  }

  /** Then so do the readers. */
  lemma {:induction false} ReadersAscend(ms: seq<Match>, n: nat, m: nat)
    requires Ascending(ms) && n < m < |ReadersIn(ms)|
    ensures ReadersIn(ms)[n].at < ReadersIn(ms)[m].at
  {
    var rest := ReadersIn(ms[1..]);
    if EarlyOption(WordsFrom(ms[0].args, 0)).None? {
      ReadersAscend(ms[1..], n, m);
    } else if n > 0 {
      ReadersAscend(ms[1..], n - 1, m - 1);
    } else {
      ReadersLater(ms, rest[m - 1]);
    }
  }

  /** A reader of a later match stands later. */
  lemma ReadersLater(ms: seq<Match>, r: Reader)
    requires Ascending(ms) && ms != [] && r in ReadersIn(ms[1..])
    ensures ms[0].start < r.at
  {
    ReadersAre(ms[1..], r);
    var later :| later in ms[1..] && later.start == r.at && Reports(later, r.flag);
    assert exists k :: 0 < k < |ms| && ms[k] == later;
  }

  // ---- lines and offsets ------------------------------------------------------------------------

  /** Where column c of line l stands in the joined text. */
  function Pos(lines: seq<string>, l: nat, c: nat): nat
    requires l < |lines|
  {
    if l == 0 then c else |lines[0]| + 1 + Pos(lines[1..], l - 1, c)
  }

  predicate NoNewlines(lines: seq<string>) {
    forall n :: 0 <= n < |lines| ==> Find(lines[n], '\n', 0) == |lines[n]|
  }

  lemma {:induction false} CountNone(s: string, c: char)
    requires Find(s, c, 0) == |s|
    ensures Count(s, c) == 0
    decreases |s|
  {
    if s != "" {
      var t := s[1..];
      assert forall k :: 0 <= k < |t| ==> t[k] == s[k + 1];
      CountNone(t, c);
    }
  }

  lemma {:induction false} CountSplit(a: string, b: string, c: char)
    ensures Count(a + b, c) == Count(a, c) + Count(b, c)
  {
    if a == "" {
      assert a + b == b;
    } else {
      assert (a + b)[1..] == a[1..] + b;
      CountSplit(a[1..], b, c);
    }
  }

  lemma {:induction false} LinesJoin(text: string)
    ensures Joined(Lines(text)) == text
    decreases |text|
  {
    var e := Find(text, '\n', 0);
    if e < |text| {
      LinesJoin(text[e + 1..]);
      assert text == text[..e] + "\n" + text[e + 1..];
    }
  }

  /** The lines from a on, cut off the front of the joined text. */
  lemma JoinedFrom(lines: seq<string>, n: nat)
    requires n < |lines|
    ensures lines[n..] != []
    ensures Joined(lines[n..]) == lines[n] + if n + 1 == |lines| then "" else "\n" + Joined(lines[n + 1..])
  {
    assert lines[n..][1..] == lines[n + 1..];
  }

  /** Lines a to b joined, where the text goes on after them with a newline or ends. */
  lemma {:induction false} JoinedTo(lines: seq<string>, a: nat, b: nat) returns (rest: string)
    requires a < b <= |lines|
    ensures Joined(lines[a..]) == Joined(lines[a..b]) + rest && (rest == "" || rest[0] == '\n')
    decreases b - a
  {
    JoinedFrom(lines, a);
    JoinedFrom(lines[..b], a);
    assert lines[..b][a..] == lines[a..b];
    if a + 1 == b {
      rest := if b == |lines| then "" else "\n" + Joined(lines[b..]);
    } else {
      rest := JoinedTo(lines, a + 1, b);
      assert lines[..b][a + 1..] == lines[a + 1..b];
      assert Joined(lines[a..]) == lines[a] + ("\n" + (Joined(lines[a + 1..b]) + rest));
    }
  }

  /** Where line l begins, and what is before it: as many newlines as lines. */
  lemma {:induction false} LineStarts(lines: seq<string>, l: nat) returns (before: string)
    requires NoNewlines(lines) && l < |lines|
    ensures Joined(lines) == before + Joined(lines[l..]) && |before| == Pos(lines, l, 0)
    ensures Count(before, '\n') == l && (before == "" || before[|before| - 1] == '\n')
    decreases l
  {
    if l == 0 {
      before := "";
      assert lines[0..] == lines;
    } else {
      before := LineStarts(lines, l - 1);
      var line := lines[l - 1];
      JoinedFrom(lines, l - 1);
      var more := before + (line + "\n");
      assert Joined(lines) == more + Joined(lines[l..]);
      CountSplit(before, line + "\n", '\n');
      CountSplit(line, "\n", '\n');
      CountNone(line, '\n');
      assert Count("\n", '\n') == 1;
      PosNext(lines, l - 1);
      before := more;
    }
  }

  lemma {:induction false} PosNext(lines: seq<string>, l: nat)
    requires l + 1 < |lines|
    ensures Pos(lines, l + 1, 0) == Pos(lines, l, 0) + |lines[l]| + 1
    decreases l
  {
    if l > 0 {
      PosNext(lines[1..], l - 1);
    }
  }

  /** A newline for every line but the last. */
  lemma {:induction false} CountJoined(lines: seq<string>)
    requires NoNewlines(lines) && lines != []
    ensures Count(Joined(lines), '\n') == |lines| - 1
    decreases |lines|
  {
    CountNone(lines[0], '\n');
    if |lines| > 1 {
      CountJoined(lines[1..]);
      CountSplit(lines[0] + "\n", Joined(lines[1..]), '\n');
      CountSplit(lines[0], "\n", '\n');
      assert Count("\n", '\n') == 1;
    }
  }

  // ---- the line a finding names -----------------------------------------------------------------

  /** The line the loop computes for a finding at an offset of a script that starts on a line. */
  function NamedLine(offset: nat, script: string, at: nat): nat
    requires at <= |script|
  {
    offset + Count(script[..at], '\n') + 1
  }

  /** The line a position of the file is on, counted from one. */
  function LineAt(text: string, p: nat): nat
    requires p <= |text|
  {
    Count(text[..p], '\n') + 1
  }

  predicate LineStart(text: string, p: nat) {
    p == 0 || (p <= |text| && text[p - 1] == '\n')
  }

  predicate LineEnd(text: string, p: nat) {
    p == |text| || (p < |text| && text[p] == '\n')
  }

  /** The script of a step is this piece of the file: whole lines, or the end of the line of its key. */
  ghost predicate PieceAt(text: string, s: RunStep, base: nat) {
    && At(text, base, s.script) && LineEnd(text, base + |s.script|)
    && LineAt(text, base) == s.offset + 1
    && (s.offset > s.header ==> LineStart(text, base))
  }

  /** The script begins at base, and a finding at this offset of it is there, on the line that is named. */
  ghost predicate FoundAt(text: string, s: RunStep, at: nat, base: nat)
    requires at < |s.script|
  {
    && PieceAt(text, s, base) && text[base + at] == s.script[at]
    && NamedLine(s.offset, s.script, at) == LineAt(text, base + at)
  }

  lemma Cut(before: string, script: string, rest: string)
    requires rest == "" || rest[0] == '\n'
    ensures var text, base := before + (script + rest), |before|;
      At(text, base, script) && LineEnd(text, base + |script|) && text[..base] == before
  {
    var text, base := before + (script + rest), |before|;
    assert text == before + script + rest;
    assert text[base..base + |script|] == script;
  }

  /** The script of a block is its lines. */
  lemma BlockIsPiece(lines: seq<string>, s: RunStep) returns (base: nat)
    requires NoNewlines(lines) && s.header < s.offset < s.end <= |lines| && s.script == Joined(lines[s.offset..s.end])
    ensures PieceAt(Joined(lines), s, base)
  {
    var before := LineStarts(lines, s.offset);
    var rest := JoinedTo(lines, s.offset, s.end);
    base := |before|;
    Cut(before, s.script, rest);
  }

  /** The script of a step without one is the end of its line. */
  lemma LineIsPiece(lines: seq<string>, s: RunStep, d: nat) returns (base: nat)
    requires NoNewlines(lines) && s.header == s.offset < |lines|
    requires d <= |lines[s.header]| && s.script == lines[s.header][d..]
    ensures PieceAt(Joined(lines), s, base)
  {
    var before := LineStarts(lines, s.header);
    var line, rest := lines[s.header], AfterLine(lines, s.header);
    var most := CutLine(before, line, d, rest);
    base := |most|;
    CutIsPiece(Joined(lines), s, most, rest);
  }

  /** What follows line n in the joined text. */
  function AfterLine(lines: seq<string>, n: nat): (rest: string)
    requires n < |lines|
    ensures rest == "" || rest[0] == '\n'
    ensures Joined(lines[n..]) == lines[n] + rest
  {
    JoinedFrom(lines, n);
    if n + 1 == |lines| then "" else "\n" + Joined(lines[n + 1..])
  }

  lemma CutIsPiece(text: string, s: RunStep, before: string, rest: string)
    requires text == before + (s.script + rest) && (rest == "" || rest[0] == '\n')
    requires Count(before, '\n') == s.offset == s.header
    ensures PieceAt(text, s, |before|)
  {
    Cut(before, s.script, rest);
  }

  lemma CutLine(before: string, line: string, d: nat, rest: string) returns (most: string)
    requires d <= |line| && Find(line, '\n', 0) == |line|
    ensures before + (line + rest) == most + (line[d..] + rest) && Count(most, '\n') == Count(before, '\n')
  {
    var front := line[..d];
    most := before + front;
    assert line == front + line[d..];
    assert before + (line + rest) == most + (line[d..] + rest);
    CountSplit(before, front, '\n');
    assert forall k :: 0 <= k < d ==> front[k] == line[k];
    CountNone(front, '\n');
  }

  /** The script of every step of a workflow is a piece of the workflow, unless its block is empty. */
  lemma ScriptIsPiece(text: string, s: RunStep) returns (base: nat)
    requires s in StepsFrom(Lines(text), 0) && s.offset < s.end
    ensures PieceAt(text, s, base)
  {
    StepsAreSteps(Lines(text), 0, s);
    LinesJoin(text);
    base := StepIsPiece(Lines(text), s);
  }

  lemma StepIsPiece(lines: seq<string>, s: RunStep) returns (base: nat)
    requires NoNewlines(lines) && IsStep(lines, 0, s) && s.offset < s.end
    ensures PieceAt(Joined(lines), s, base)
  {
    var k := RunKey(lines[s.header]);
    if Block(k.rest) {
      base := BlockIsPiece(lines, s);
    } else {
      base := LineIsPiece(lines, s, |lines[s.header]| - |k.rest|);
    }
  }

  /** A script begins and ends within its step. */
  lemma ScriptStays(lines: seq<string>, s: RunStep)
    requires NoNewlines(lines) && IsStep(lines, 0, s)
    ensures s.offset + Count(s.script, '\n') < s.end || s.script == ""
  {
    var k := RunKey(lines[s.header]);
    if Block(k.rest) {
      var body := lines[s.offset..s.end];
      if body != [] {
        CountJoined(body);
      }
    } else {
      var line, d := lines[s.header], |lines[s.header]| - |k.rest|;
      assert forall n :: 0 <= n < |s.script| ==> s.script[n] == line[d + n];
      CountNone(s.script, '\n');
    }
  }

  lemma LineOfPiece(text: string, base: nat, script: string, at: nat)
    requires At(text, base, script) && at <= |script|
    ensures LineAt(text, base + at) == LineAt(text, base) + Count(script[..at], '\n')
    ensures Count(script[..at], '\n') <= Count(script, '\n')
  {
    PieceFront(text, base, script, at);
    CountSplit(text[..base], script[..at], '\n');
    CountFront(script, at);
  }

  lemma PieceFront(text: string, base: nat, script: string, at: nat)
    requires At(text, base, script) && at <= |script|
    ensures base + at <= |text| && text[..base + at] == text[..base] + script[..at]
  {
    var piece := text[base..base + |script|];
    assert text[base..base + at] == piece[..at];
  }

  lemma CountFront(script: string, at: nat)
    requires at <= |script|
    ensures Count(script[..at], '\n') <= Count(script, '\n')
  {
    assert script == script[..at] + script[at..];
    CountSplit(script[..at], script[at..], '\n');
  }

  /** A finding in a step names the line of the file that its own character is on, a line of that step. */
  lemma StepFindingIsThere(text: string, s: RunStep, at: nat) returns (base: nat)
    requires s in StepsFrom(Lines(text), 0) && at < |s.script|
    ensures FoundAt(text, s, at, base) && s.header < NamedLine(s.offset, s.script, at) <= s.end
  {
    var lines := Lines(text);
    StepsAreSteps(lines, 0, s);
    ScriptStays(lines, s);
    base := ScriptIsPiece(text, s);
    LineOfPiece(text, base, s.script, at);
    AtChars(text, base, s.script);
  }

  /**
   For any shell file or workflow: a reader found in a masked script points at a pipe of the script, that
   pipe is one of the file, where the script begins in the file and as far on, and the line that is named
   is the line it is on.
   */
  lemma ReaderIsThere(text: string, s: RunStep, ms: seq<Match>, r: Reader) returns (base: nat)
    requires s in StepsFrom(Lines(text), 0) || s == RunStep(0, |Lines(text)|, 0, text)
    requires AtPipes(MaskSpec(s.script).text, ms) && r in ReadersIn(ms)
    ensures r.at < |s.script| && s.script[r.at] == '|'
    ensures FoundAt(text, s, r.at, base)
  {
    ReaderIsAtPipe(s.script, ms, r);
    if s in StepsFrom(Lines(text), 0) {
      base := StepFindingIsThere(text, s, r.at);
    } else {
      base := 0;
      WholeIsPiece(text, s, r.at, base);
    }
  }

  /** A shell file is the whole of it. */
  lemma WholeIsPiece(text: string, s: RunStep, at: nat, base: nat)
    requires s.offset == s.header == base == 0 && s.script == text && at < |text|
    ensures FoundAt(text, s, at, base)
  {
    assert text[..0] == "" && text[0..|text|] == text;
    assert base + at == at;
  }

  lemma ReaderIsAtPipe(script: string, ms: seq<Match>, r: Reader)
    requires AtPipes(MaskSpec(script).text, ms) && r in ReadersIn(ms)
    ensures r.at < |script| && script[r.at] == '|'
  {
    var masked := MaskSpec(script).text;
    ReadersAtPipes(masked, ms, r);
    MaskShape(script);
    assert masked[r.at] != FILL && masked[r.at] != ' ';
  }
}
