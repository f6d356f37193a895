/**
 The shell masker of scripts/no-reader-leaves-a-pipe-early.sh: a pushdown lexer that overwrites
 everything in a script that is not live shell code, keeping every offset.

 `Step` is one turn of its loop as a function, `MaskFrom` the whole loop, and `Mask` the loop
 itself, over an array it overwrites and a stack it pushes and pops.
 */
module Masker {
  import opened Text

  /** What the lexer is inside of. The bottom of the stack is live code that is not a substitution. */
  datatype Frame =
    | Code(sub: bool, depth: nat, cases: nat)
    | Quote
    | Param(inQuote: bool)

  /** A here-document named on the current line. */
  datatype Heredoc = Heredoc(delim: string, strip: bool)

  /** Why the masker lost its place. */
  datatype Why = Fine | UnclosedSingle | EndsInside

  datatype Masked = Masked(text: string, why: Why)

  /** What a step does with the characters it passes over. */
  datatype Paint = Keep | Blank | Join

  datatype Move =
    | Lost
    | Go(next: nat, frames: seq<Frame>, waiting: seq<Heredoc>, paint: Paint)

  const FILL := '_'
  const BOTTOM := Code(false, 0, 0)

  function Covered(c: char): char {
    if c == '\n' then c else FILL
  }

  /** s with every character but a newline overwritten. */
  function Blanked(s: string): (r: string)
    ensures |r| == |s|
    ensures forall k :: 0 <= k < |s| ==> r[k] == Covered(s[k])
  {
    seq(|s|, k requires 0 <= k < |s| => Covered(s[k]))
  }

  predicate Sound(frames: seq<Frame>) {
    && |frames| >= 1
    && frames[0].Code? && !frames[0].sub
  }

  function Top(frames: seq<Frame>): Frame
    requires |frames| >= 1
  {
    frames[|frames| - 1]
  }

  function Pop(frames: seq<Frame>): seq<Frame>
    requires |frames| >= 1
  {
    frames[..|frames| - 1]
  }

  function Replace(frames: seq<Frame>, f: Frame): seq<Frame>
    requires |frames| >= 1
  {
    frames[|frames| - 1 := f]
  }

  // ---- the scans a step makes -------------------------------------------------------------------

  /** Where $(( ... )) ends: past the parenthesis that brings the depth back to zero. */
  function ArithmeticEnd(text: string, k: nat, depth: int): (r: nat)
    ensures k <= |text| ==> k <= r <= |text|
    decreases |text| - k
  {
    if k >= |text| then |text|
    else if text[k] == '(' then ArithmeticEnd(text, k + 1, depth + 1)
    else if text[k] == ')' then
      if depth - 1 == 0 then k + 1 else ArithmeticEnd(text, k + 1, depth - 1)
    else ArithmeticEnd(text, k + 1, depth)
  }

  /** Where the text of $'...' ends: at its quote, or at or past the end of the script. */
  function AnsiEnd(text: string, k: nat): (r: nat)
    ensures k <= r
    decreases |text| - k
  {
    if k >= |text| || text[k] == '\'' then k
    else AnsiEnd(text, if text[k] == '\\' then k + 2 else k + 1)
  }

  function TabsStripped(line: string): string {
    if line != "" && line[0] == '\t' then TabsStripped(line[1..]) else line
  }

  predicate Closes(h: Heredoc, line: string) {
    (if h.strip then TabsStripped(line) else line) == h.delim
  }

  /** Past the body of one here-document and its delimiter line. */
  function BodyEnd(text: string, i: nat, h: Heredoc): (r: nat)
    ensures i <= r
    ensures i < |text| ==> i < r
    decreases |text| - i, 2
  {
    if i >= |text| then i else BodyLine(text, i, h)
  }

  function BodyLine(text: string, i: nat, h: Heredoc): (r: nat)
    requires i < |text|
    ensures i < r
    decreases |text| - i, 1
  {
    BodyNext(text, i, Find(text, '\n', i), h)
  }

  function BodyNext(text: string, i: nat, end: nat, h: Heredoc): (r: nat)
    requires i < |text| && i <= end <= |text|
    ensures i < r
    decreases |text| - i, 0
  {
    if Closes(h, text[i..end]) then end + 1 else BodyEnd(text, end + 1, h)
  }

  /** One line of a body, unfolded. */
  lemma BodyUnfolds(text: string, i: nat, h: Heredoc)
    requires i < |text|
    ensures var end := Find(text, '\n', i);
      BodyEnd(text, i, h) == if Closes(h, text[i..end]) then end + 1 else BodyEnd(text, end + 1, h)
  {
    assert BodyEnd(text, i, h) == BodyLine(text, i, h);
    assert BodyLine(text, i, h) == BodyNext(text, i, Find(text, '\n', i), h);
  }

  function BodiesEnd(text: string, i: nat, waiting: seq<Heredoc>): (r: nat)
    ensures i <= r
    decreases |waiting|
  {
    if waiting == [] then i else BodiesEnd(text, BodyEnd(text, i, waiting[0]), waiting[1..])
  }

  function SkipBlanks(text: string, i: nat): (r: nat)
    requires i <= |text|
    ensures i <= r <= |text|
    ensures forall k :: i <= k < r ==> text[k] == ' ' || text[k] == '\t'
    ensures r < |text| ==> text[r] != ' ' && text[r] != '\t'
    decreases |text| - i
  {
    if i < |text| && (text[i] == ' ' || text[i] == '\t') then SkipBlanks(text, i + 1) else i
  }

  datatype Named = NoDoc | Doc(end: nat, doc: Heredoc)

  /** The delimiter a here-document operator names: quoted, or a name after an optional backslash. */
  function Delimiter(text: string, i: nat, strip: bool): (r: Named)
    requires i <= |text|
    ensures r.Doc? ==> i < r.end <= |text| && r.doc.delim != "" && r.doc.strip == strip
  {
    if i < |text| && (text[i] == '\'' || text[i] == '"') then
      var q := Find(text, text[i], i + 1);
      if q < |text| && i + 1 < q && Find(text, '\n', i + 1) > q
      then Doc(q + 1, Heredoc(text[i + 1..q], strip)) else NoDoc
    else
      var s := if i < |text| && text[i] == '\\' then i + 1 else i;
      if s < |text| && (IsAlpha(text[s]) || text[s] == '_')
      then var e := WordEnd(text, s); Doc(e, Heredoc(text[s..e], strip)) else NoDoc
  }

  /** The match of the here-document pattern at i, where << stands. */
  function HeredocAt(text: string, i: nat): (r: Named)
    requires Two(text, i, '<', '<')
    ensures r.Doc? ==> i + 2 < r.end <= |text| && r.doc.delim != ""
  {
    var strip := i + 2 < |text| && text[i + 2] == '-';
    Delimiter(text, SkipBlanks(text, if strip then i + 3 else i + 2), strip)
  }

  // ---- one step ---------------------------------------------------------------------------------

  predicate CommentLead(c: char) {
    c == ' ' || c == '\t' || c == '\n' || c == ';' || c == '&' || c == '|' || c == '('
  }

  /** A character after which a letter does not begin a word. */
  predicate Glue(c: char) {
    IsAlpha(c) || IsDigit(c) || c == '_' || c == '-' || c == '.' || c == '/' || c == '$'
  }

  predicate CommentAt(text: string, i: nat)
    requires i < |text|
  {
    text[i] == '#' && (i == 0 || CommentLead(text[i - 1]))
  }

  predicate WordAt(text: string, i: nat)
    requires i < |text|
  {
    IsAlpha(text[i]) && (i == 0 || !Glue(text[i - 1]))
  }

  function AfterWord(f: Frame, word: string): Frame
    requires f.Code?
  {
    if word == "case" then f.(cases := f.cases + 1)
    else if word == "esac" then f.(cases := if f.cases == 0 then 0 else f.cases - 1)
    else f
  }

  function AfterClose(frames: seq<Frame>): seq<Frame>
    requires |frames| >= 1 && Top(frames).Code?
  {
    var f := Top(frames);
    if f.depth > 0 then Replace(frames, f.(depth := f.depth - 1))
    else if f.sub && f.cases == 0 then Pop(frames)
    else frames
  }

  /** $((, $( and ${, which open the same way in every frame. */
  function Dollar(text: string, i: nat, frames: seq<Frame>, waiting: seq<Heredoc>, inQuote: bool): Move
    requires Three(text, i, '$', '(', '(') || Two(text, i, '$', '(') || Two(text, i, '$', '{')
  {
    if Three(text, i, '$', '(', '(') then Go(ArithmeticEnd(text, i + 1, 0), frames, waiting, Blank)
    else if Two(text, i, '$', '(') then Go(i + 2, frames + [Code(true, 0, 0)], waiting, Keep)
    else Go(i + 2, frames + [Param(inQuote)], waiting, Blank)
  }

  predicate Opens(text: string, i: nat) {
    Two(text, i, '$', '(') || Two(text, i, '$', '{')
  }

  function SingleQuote(text: string, i: nat, frames: seq<Frame>, waiting: seq<Heredoc>): Move {
    var end := Find(text, '\'', i + 1);
    if end == |text| then Lost else Go(end + 1, frames, waiting, Blank)
  }

  /** What live code skips whole: here-documents, escapes, comments, quotes. */
  function CodeStep(text: string, i: nat, frames: seq<Frame>, waiting: seq<Heredoc>): (m: Move)
    requires i < |text| && Sound(frames) && Top(frames).Code?
    ensures m.Go? ==> i < m.next && Sound(m.frames) && |frames| - 1 <= |m.frames| <= |frames| + 1
    ensures m.Go? && m.paint == Join ==> Two(text, i, '\\', '\n') && m.next == i + 2
  {
    var c := text[i];
    if c == '\n' && waiting != [] then Go(BodiesEnd(text, i + 1, waiting), frames, [], Blank)
    else if c == '\\' then Go(i + 2, frames, waiting, if Two(text, i, '\\', '\n') then Join else Blank)
    else if CommentAt(text, i) then Go(Find(text, '\n', i), frames, waiting, Blank)
    else if Two(text, i, '$', '\'') then Go(AnsiEnd(text, i + 2) + 1, frames, waiting, Blank)
    else OpenStep(text, i, frames, waiting)
  }

  function OpenStep(text: string, i: nat, frames: seq<Frame>, waiting: seq<Heredoc>): (m: Move)
    requires i < |text| && Sound(frames) && Top(frames).Code?
    ensures m.Go? ==> i < m.next && Sound(m.frames) && |frames| - 1 <= |m.frames| <= |frames| + 1
    ensures m.Go? ==> m.paint != Join
  {
    var c := text[i];
    if c == '\'' then SingleQuote(text, i, frames, waiting)
    else if c == '"' then Go(i + 1, frames + [Quote], waiting, Blank)
    else if Opens(text, i) then Dollar(text, i, frames, waiting, false)
    else LiveStep(text, i, frames, waiting)
  }

  /** Live code itself: parentheses, redirections, the words case and esac, anything else. */
  function LiveStep(text: string, i: nat, frames: seq<Frame>, waiting: seq<Heredoc>): (m: Move)
    requires i < |text| && Sound(frames) && Top(frames).Code?
    ensures m.Go? && m.paint != Join
    ensures i < m.next && Sound(m.frames) && |frames| - 1 <= |m.frames| <= |frames| + 1
  {
    var f, c := Top(frames), text[i];
    if c == '(' then Go(i + 1, Replace(frames, f.(depth := f.depth + 1)), waiting, Keep)
    else if c == ')' then Go(i + 1, AfterClose(frames), waiting, Keep)
    else if Three(text, i, '<', '<', '<') then Go(i + 3, frames, waiting, Keep)
    else if Two(text, i, '<', '<') then
      var m := HeredocAt(text, i);
      if m.Doc? then Go(m.end, frames, waiting + [m.doc], Blank) else Go(i + 2, frames, waiting, Keep)
    else if WordAt(text, i) then
      var e := WordEnd(text, i);
      Go(e, Replace(frames, AfterWord(f, text[i..e])), waiting, Keep)
    else Go(i + 1, frames, waiting, Keep)
  }

  function QuoteStep(text: string, i: nat, frames: seq<Frame>, waiting: seq<Heredoc>): Move
    requires i < |text| && |frames| >= 1
  {
    var c := text[i];
    if c == '\\' then Go(i + 2, frames, waiting, Blank)
    else if c == '"' then Go(i + 1, Pop(frames), waiting, Blank)
    else if Opens(text, i) then Dollar(text, i, frames, waiting, true)
    else Go(i + 1, frames, waiting, Blank)
  }

  function ParamStep(text: string, i: nat, frames: seq<Frame>, waiting: seq<Heredoc>): Move
    requires i < |text| && |frames| >= 1 && Top(frames).Param?
  {
    var f, c := Top(frames), text[i];
    if c == '\\' then Go(i + 2, frames, waiting, Blank)
    else if c == '}' then Go(i + 1, Pop(frames), waiting, Blank)
    else if c == '\'' && !f.inQuote then SingleQuote(text, i, frames, waiting)
    else if c == '"' then Go(i + 1, frames + [Quote], waiting, Blank)
    else if Opens(text, i) then Dollar(text, i, frames, waiting, f.inQuote)
    else Go(i + 1, frames, waiting, Blank)
  }

  /** One turn of the loop. It moves forward, and it never pops the bottom frame. */
  function Step(text: string, i: nat, frames: seq<Frame>, waiting: seq<Heredoc>): (m: Move)
    requires i < |text| && Sound(frames)
    ensures m.Go? ==> i < m.next && Sound(m.frames) && |frames| - 1 <= |m.frames| <= |frames| + 1
    ensures m.Go? && m.paint == Join ==>
      Top(frames).Code? && Two(text, i, '\\', '\n') && m.next == i + 2
  {
    match Top(frames)
    case Code(_, _, _) => CodeStep(text, i, frames, waiting)
    case Quote => QuoteStep(text, i, frames, waiting)
    case Param(_) => ParamStep(text, i, frames, waiting)
  }

  /** What a move writes over the characters it passes. */
  function Painted(s: string, p: Paint): (r: string)
    requires p == Join ==> |s| == 2
    ensures |r| == |s|
  {
    match p
    case Keep => s
    case Blank => Blanked(s)
    case Join => "  "
  }

  function Written(text: string, i: nat, m: Move): (r: string)
    requires i < |text| && m.Go? && i < m.next
    requires m.paint == Join ==> m.next == i + 2 <= |text|
    ensures |r| == Min(m.next, |text|) - i
  {
    Painted(text[i..Min(m.next, |text|)], m.paint)
  }

  function Prepend(s: string, m: Masked): Masked {
    m.(text := s + m.text)
  }

  /** Where the loop stands. */
  datatype Spot = Spot(i: nat, frames: seq<Frame>, waiting: seq<Heredoc>)

  /** The rest of the masked script, from i on, and why the masker lost its place. */
  function MaskFrom(text: string, i: nat, frames: seq<Frame>, waiting: seq<Heredoc>): Masked
    requires Sound(frames)
    decreases |text| - i, 3
  {
    Rest(text, Spot(i, frames, waiting))
  }

  function Rest(text: string, at: Spot): Masked
    requires Sound(at.frames)
    decreases |text| - at.i, 2
  {
    if at.i < |text| then Turn(text, at)
    else Masked("", if |at.frames| != 1 then EndsInside else Fine)
  }

  function Turn(text: string, at: Spot): Masked
    requires at.i < |text| && Sound(at.frames)
    decreases |text| - at.i, 1
  {
    After(text, at.i, Step(text, at.i, at.frames, at.waiting))
  }

  function After(text: string, i: nat, m: Move): Masked
    requires i < |text|
    requires m.Go? ==> i < m.next && Sound(m.frames) && (m.paint == Join ==> m.next == i + 2 <= |text|)
    decreases |text| - i, 0
  {
    if m.Lost? then Masked(text[i..], UnclosedSingle)
    else Prepend(Written(text, i, m), MaskFrom(text, m.next, m.frames, m.waiting))
  }

  /** One turn, unfolded. */
  lemma Unfolds(text: string, i: nat, frames: seq<Frame>, waiting: seq<Heredoc>)
    requires i < |text| && Sound(frames)
    ensures MaskFrom(text, i, frames, waiting) == After(text, i, Step(text, i, frames, waiting))
  {
    var at := Spot(i, frames, waiting);
    assert Rest(text, at) == Turn(text, at);
    assert Turn(text, at) == After(text, i, Step(text, i, frames, waiting));
  }

  lemma Ends(text: string, i: nat, frames: seq<Frame>, waiting: seq<Heredoc>)
    requires i >= |text| && Sound(frames)
    ensures MaskFrom(text, i, frames, waiting) == Masked("", if |frames| != 1 then EndsInside else Fine)
  {
    assert Rest(text, Spot(i, frames, waiting)) == Masked("", if |frames| != 1 then EndsInside else Fine);
  }

  function MaskSpec(text: string): Masked {
    MaskFrom(text, 0, [BOTTOM], [])
  }

  // ---- the loop ---------------------------------------------------------------------------------

  /** out holds the masked text up to i and the script itself after it. */
  ghost predicate Tracks(out: array<char>, text: string, done: string, i: nat)
    reads out
  {
    && |done| == Min(i, |text|)
    && out[..] == done + text[|done|..]
  }

  /** The nested function blank. */
  method BlankOut(out: array<char>, a: nat, b: nat)
    modifies out
    ensures forall k :: 0 <= k < out.Length ==>
      out[k] == if a <= k < b then Covered(old(out[k])) else old(out[k])
  {
    var k := a;
    while k < Min(b, out.Length)
      invariant a <= k && (k <= Min(b, out.Length) || k == a)
      invariant forall j :: 0 <= j < out.Length ==>
        out[j] == if a <= j < k then Covered(old(out[j])) else old(out[j])
    {
      if out[k] != '\n' {
        out[k] := FILL;
      }
      k := k + 1;
    }
  }

  /** blank, from where the masker stands to where it goes next. */
  method BlankTo(text: string, out: array<char>, i: nat, next: nat, ghost done: string)
    requires i < next && i < |text| && Tracks(out, text, done, i)
    modifies out
    ensures Tracks(out, text, done + Blanked(text[i..Min(next, |text|)]), next)
  {
    BlankOut(out, i, next);
    ghost var w := Blanked(text[i..Min(next, |text|)]);
    assert out[..] == (done + w) + text[|done + w|..];
  }

  /** A continued line: the backslash and the newline become two spaces. */
  method JoinLines(text: string, out: array<char>, i: nat, ghost done: string)
    requires i + 1 < |text| && Tracks(out, text, done, i)
    modifies out
    ensures Tracks(out, text, done + "  ", i + 2)
  {
    out[i], out[i + 1] := ' ', ' ';
    assert out[..] == (done + "  ") + text[i + 2..];
  }

  lemma KeepTo(text: string, out: array<char>, i: nat, next: nat, done: string)
    requires i < next && i < |text| && Tracks(out, text, done, i)
    ensures Tracks(out, text, done + text[i..Min(next, |text|)], next)
  {
    var m := Min(next, |text|);
    assert done + text[i..] == (done + text[i..m]) + text[m..];
  }

  /** The nested function arithmetic_end. */
  method ScanArithmetic(text: string, start: nat) returns (end: nat)
    ensures end == ArithmeticEnd(text, start, 0)
  {
    var depth, k := 0, start;
    while k < |text|
      invariant ArithmeticEnd(text, k, depth) == ArithmeticEnd(text, start, 0)
    {
      if text[k] == '(' {
        depth := depth + 1;
      } else if text[k] == ')' {
        depth := depth - 1;
        if depth == 0 {
          return k + 1;
        }
      }
      k := k + 1;
    }
    return |text|;
  }

  /** The loop over the text of $'...'. */
  method ScanAnsi(text: string, start: nat) returns (k: nat)
    ensures k == AnsiEnd(text, start)
  {
    k := start;
    while k < |text| && text[k] != '\''
      invariant AnsiEnd(text, k) == AnsiEnd(text, start)
      decreases |text| - k
    {
      k := k + if text[k] == '\\' then 2 else 1;
    }
  }

  /** The text so far, then covered characters up to i, then the text as it was. */
  ghost predicate Swept(out: array<char>, text: string, done: string, i: nat)
    requires |done| <= |text|
    reads out
  {
    && out.Length == |text|
    && forall k :: 0 <= k < |text| ==>
      out[k] == if k < |done| then done[k] else if k < i then Covered(text[k]) else text[k]
  }

  lemma TracksSwept(out: array<char>, text: string, done: string, i: nat)
    requires |done| <= |text| && Tracks(out, text, done, |done|)
    requires i == |done| || (i == |done| + 1 <= |text| && text[|done|] == '\n')
    ensures Swept(out, text, done, i)
  {
    forall k | 0 <= k < |text|
      ensures out[k] == if k < |done| then done[k] else text[k]
    {
      assert out[..][k] == out[k];
    }
  }

  lemma SweptTracks(out: array<char>, text: string, done: string, i: nat)
    requires |done| <= |text| && |done| <= i && Swept(out, text, done, i)
    ensures Tracks(out, text, done + Blanked(text[|done|..Min(i, |text|)]), i)
  {
    ghost var m := Min(i, |text|);
    assert out[..] == (done + Blanked(text[|done|..m])) + text[m..];
  }

  /** One line of a here-document, and whether it closes it. */
  method BlankLine(text: string, out: array<char>, i: nat, h: Heredoc, ghost done: string)
    returns (next: nat, last: bool)
    requires |done| <= i < |text| && Swept(out, text, done, i)
    modifies out
    ensures i < next && Swept(out, text, done, next)
    ensures BodyEnd(text, i, h) == if last then next else BodyEnd(text, next, h)
  {
    var end := Find(text, '\n', i);
    BodyUnfolds(text, i, h);
    BlankOut(out, i, end);
    next, last := end + 1, Closes(h, text[i..end]);
  }

  /** The loop over the lines of one here-document. */
  method BlankBody(text: string, out: array<char>, start: nat, h: Heredoc, ghost done: string) returns (i: nat)
    requires |done| <= |text| && |done| <= start && Swept(out, text, done, start)
    modifies out
    ensures i == BodyEnd(text, start, h) && Swept(out, text, done, i)
  {
    i := start;
    while i < |text|
      invariant start <= i && Swept(out, text, done, i)
      invariant BodyEnd(text, i, h) == BodyEnd(text, start, h)
    {
      var next, last := BlankLine(text, out, i, h, done);
      i := next;
      if last {
        break;
      }
    }
  }

  /** The loop over the here-documents that wait for the end of the line. */
  method BlankBodies(text: string, out: array<char>, start: nat, waiting: seq<Heredoc>, ghost done: string)
    returns (i: nat)
    requires |done| <= |text| && |done| <= start && Swept(out, text, done, start)
    modifies out
    ensures i == BodiesEnd(text, start, waiting) && Swept(out, text, done, i)
  {
    i := start;
    for d := 0 to |waiting|
      invariant start <= i && Swept(out, text, done, i)
      invariant BodiesEnd(text, i, waiting[d..]) == BodiesEnd(text, start, waiting)
    {
      i := BlankBody(text, out, i, waiting[d], done);
    }
  }

  /** The end of a line that named here-documents: their bodies follow. */
  method EndLine(text: string, out: array<char>, i: nat, waiting: seq<Heredoc>, ghost done: string)
    returns (next: nat)
    requires i < |text| && text[i] == '\n' && Tracks(out, text, done, i)
    modifies out
    ensures next == BodiesEnd(text, i + 1, waiting)
    ensures Tracks(out, text, done + Blanked(text[i..Min(next, |text|)]), next)
  {
    TracksSwept(out, text, done, i + 1);
    next := BlankBodies(text, out, i + 1, waiting, done);
    SweptTracks(out, text, done, next);
  }

  /** The scans of $((, $( and ${, which every frame makes alike. */
  method DollarTurn(text: string, out: array<char>, i: nat, frames: seq<Frame>, waiting: seq<Heredoc>,
                    inQuote: bool, ghost done: string) returns (next: nat, fs: seq<Frame>)
    requires i < |text| && Opens(text, i) && Tracks(out, text, done, i)
    modifies out
    ensures var m := Dollar(text, i, frames, waiting, inQuote);
      m.Go? && i < next == m.next && fs == m.frames && waiting == m.waiting && m.paint != Join
      && Tracks(out, text, done + Painted(text[i..Min(next, |text|)], m.paint), next)
  {
    next, fs := i + 2, frames;
    if Three(text, i, '$', '(', '(') {
      next := ScanArithmetic(text, i + 1);
      BlankTo(text, out, i, next, done);
    } else if Two(text, i, '$', '(') {
      fs := frames + [Code(true, 0, 0)];
      KeepTo(text, out, i, next, done);
    } else {
      fs := frames + [Param(inQuote)];
      BlankTo(text, out, i, next, done);
    }
  }

  /** A backslash in code, and what it quotes. */
  method EscapeTurn(text: string, out: array<char>, i: nat, ghost done: string)
    requires i < |text| && Tracks(out, text, done, i)
    modifies out
    ensures Tracks(out, text, done + Painted(text[i..Min(i + 2, |text|)],
                                             if Two(text, i, '\\', '\n') then Join else Blank), i + 2)
  {
    if Two(text, i, '\\', '\n') {
      JoinLines(text, out, i, done);
    } else {
      BlankTo(text, out, i, i + 2, done);
    }
  }

  method CodeTurn(text: string, out: array<char>, i: nat, frames: seq<Frame>, waiting: seq<Heredoc>,
                  ghost done: string) returns (lost: bool, next: nat, fs: seq<Frame>, ws: seq<Heredoc>)
    requires i < |text| && Sound(frames) && Top(frames).Code? && Tracks(out, text, done, i)
    modifies out
    ensures var m := Step(text, i, frames, waiting);
      if lost then m.Lost? && Tracks(out, text, done, i) else
      m.Go? && m == Go(next, fs, ws, m.paint) && Tracks(out, text, done + Written(text, i, m), next)
  {
    lost, next, fs, ws := false, i + 1, frames, waiting;
    var c := text[i];
    if c == '\n' && waiting != [] {
      next := EndLine(text, out, i, waiting, done);
      ws := [];
    } else if c == '\\' {
      EscapeTurn(text, out, i, done);
      next := i + 2;
    } else if CommentAt(text, i) {
      next := Find(text, '\n', i);
      BlankTo(text, out, i, next, done);
    } else if Two(text, i, '$', '\'') {
      var k := ScanAnsi(text, i + 2);
      BlankTo(text, out, i, k + 1, done);
      next := k + 1;
    } else {
      lost, next, fs, ws := OpenTurn(text, out, i, frames, waiting, done);
    }
  }

  method OpenTurn(text: string, out: array<char>, i: nat, frames: seq<Frame>, waiting: seq<Heredoc>,
                  ghost done: string) returns (lost: bool, next: nat, fs: seq<Frame>, ws: seq<Heredoc>)
    requires i < |text| && Sound(frames) && Top(frames).Code? && Tracks(out, text, done, i)
    modifies out
    ensures var m := OpenStep(text, i, frames, waiting);
      if lost then m.Lost? && Tracks(out, text, done, i) else
      m.Go? && m == Go(next, fs, ws, m.paint) && Tracks(out, text, done + Written(text, i, m), next)
  {
    lost, next, fs, ws := false, i + 1, frames, waiting;
    var c := text[i];
    if c == '\'' {
      var end := Find(text, '\'', i + 1);
      if end == |text| {
        lost := true;
      } else {
        BlankTo(text, out, i, end + 1, done);
        next := end + 1;
      }
    } else if c == '"' {
      BlankTo(text, out, i, i + 1, done);
      fs := frames + [Quote];
    } else if Opens(text, i) {
      next, fs := DollarTurn(text, out, i, frames, waiting, false, done);
    } else {
      next, fs, ws := LiveTurn(text, out, i, frames, waiting, done);
    }
  }

  method LiveTurn(text: string, out: array<char>, i: nat, frames: seq<Frame>, waiting: seq<Heredoc>,
                  ghost done: string) returns (next: nat, fs: seq<Frame>, ws: seq<Heredoc>)
    requires i < |text| && Sound(frames) && Top(frames).Code? && Tracks(out, text, done, i)
    modifies out
    ensures var m := LiveStep(text, i, frames, waiting);
      m.Go? && m == Go(next, fs, ws, m.paint) && i < next && m.paint != Join
      && Tracks(out, text, done + Painted(text[i..Min(next, |text|)], m.paint), next)
  {
    next, fs, ws := i + 1, frames, waiting;
    var f, c := Top(frames), text[i];
    if c == '(' {
      fs := Replace(frames, f.(depth := f.depth + 1));
    } else if c == ')' {
      if f.depth > 0 {
        fs := Replace(frames, f.(depth := f.depth - 1));
      } else if f.sub && f.cases == 0 {
        fs := Pop(frames);
      }
    } else if Three(text, i, '<', '<', '<') {
      next := i + 3;
    } else if Two(text, i, '<', '<') {
      var m := HeredocAt(text, i);
      if m.Doc? {
        ws := waiting + [m.doc];
        BlankTo(text, out, i, m.end, done);
        next := m.end;
        return;
      }
      next := i + 2;
    } else if WordAt(text, i) {
      next := WordEnd(text, i);
      var word := text[i..next];
      if word == "case" {
        fs := Replace(frames, f.(cases := f.cases + 1));
      } else if word == "esac" {
        fs := Replace(frames, f.(cases := if f.cases == 0 then 0 else f.cases - 1));
      } else {
        assert Replace(frames, f) == frames;
      }
    }
    KeepTo(text, out, i, next, done);
  }

  method QuoteTurn(text: string, out: array<char>, i: nat, frames: seq<Frame>, waiting: seq<Heredoc>,
                   ghost done: string) returns (next: nat, fs: seq<Frame>)
    requires i < |text| && Sound(frames) && Top(frames) == Quote && Tracks(out, text, done, i)
    modifies out
    ensures var m := Step(text, i, frames, waiting);
      m.Go? && m == Go(next, fs, waiting, m.paint) && Tracks(out, text, done + Written(text, i, m), next)
  {
    next, fs := i + 1, frames;
    var c := text[i];
    if c == '\\' {
      BlankTo(text, out, i, i + 2, done);
      next := i + 2;
    } else if c == '"' {
      BlankTo(text, out, i, i + 1, done);
      fs := Pop(frames);
    } else if Opens(text, i) {
      next, fs := DollarTurn(text, out, i, frames, waiting, true, done);
    } else {
      BlankTo(text, out, i, i + 1, done);
    }
  }

  method ParamTurn(text: string, out: array<char>, i: nat, frames: seq<Frame>, waiting: seq<Heredoc>,
                   ghost done: string) returns (lost: bool, next: nat, fs: seq<Frame>)
    requires i < |text| && Sound(frames) && Top(frames).Param? && Tracks(out, text, done, i)
    modifies out
    ensures var m := Step(text, i, frames, waiting);
      if lost then m.Lost? && Tracks(out, text, done, i) else
      m.Go? && m == Go(next, fs, waiting, m.paint) && Tracks(out, text, done + Written(text, i, m), next)
  {
    lost, next, fs := false, i + 1, frames;
    var f, c := Top(frames), text[i];
    if c == '\\' {
      BlankTo(text, out, i, i + 2, done);
      next := i + 2;
    } else if c == '}' {
      BlankTo(text, out, i, i + 1, done);
      fs := Pop(frames);
    } else if c == '\'' && !f.inQuote {
      var end := Find(text, '\'', i + 1);
      if end == |text| {
        lost := true;
      } else {
        BlankTo(text, out, i, end + 1, done);
        next := end + 1;
      }
    } else if c == '"' {
      BlankTo(text, out, i, i + 1, done);
      fs := frames + [Quote];
    } else if Opens(text, i) {
      next, fs := DollarTurn(text, out, i, frames, waiting, f.inQuote, done);
    } else {
      BlankTo(text, out, i, i + 1, done);
    }
  }

  lemma Unfold(text: string, i: nat, frames: seq<Frame>, waiting: seq<Heredoc>, done: string)
    requires i < |text| && Sound(frames)
    ensures var m := Step(text, i, frames, waiting);
      Prepend(done, MaskFrom(text, i, frames, waiting)) ==
      if m.Lost? then Masked(done + text[i..], UnclosedSingle)
      else Prepend(done + Written(text, i, m), MaskFrom(text, m.next, m.frames, m.waiting))
  {
    Unfolds(text, i, frames, waiting);
    var m := Step(text, i, frames, waiting);
    if m.Go? {
      var rest := MaskFrom(text, m.next, m.frames, m.waiting).text;
      assert done + (Written(text, i, m) + rest) == (done + Written(text, i, m)) + rest;
    }
  }

  /** The function mask: the masked script, and why it must not be believed, if it must not. */
  method Mask(text: string) returns (masked: string, why: Why)
    ensures Masked(masked, why) == MaskSpec(text)
  {
    var n := |text|;
    var out := new char[n](k requires 0 <= k < n => text[k]);
    var frames, waiting, i := [BOTTOM], [], 0;
    ghost var done := "";
    while i < n
      invariant Sound(frames) && Tracks(out, text, done, i)
      invariant Prepend(done, MaskFrom(text, i, frames, waiting)) == MaskSpec(text)
      decreases n - i
    {
      Unfold(text, i, frames, waiting, done);
      ghost var m := Step(text, i, frames, waiting);
      var lost, next, fs, ws := false, i, frames, waiting;
      match Top(frames) {
        case Code(_, _, _) => lost, next, fs, ws := CodeTurn(text, out, i, frames, waiting, done);
        case Quote => next, fs := QuoteTurn(text, out, i, frames, waiting, done);
        case Param(_) => lost, next, fs := ParamTurn(text, out, i, frames, waiting, done);
      }
      if lost {
        return out[..], UnclosedSingle;
      }
      done, i, frames, waiting := done + Written(text, i, m), next, fs, ws;
    }
    Ends(text, i, frames, waiting);
    masked, why := out[..], if |frames| != 1 then EndsInside else Fine;
    assert text[|done|..] == "" && done + "" == done;
  }
}
