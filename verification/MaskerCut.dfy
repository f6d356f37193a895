/**
 A text that stops too soon, at any depth: between two fragments, so inside a parenthesis, a case
 statement or the line of a here-document; inside a quote, an arithmetic expansion, a here-document's
 operator or its body; or after a backslash. What the masker makes of it, exactly.
 */
module MaskerCut {
  import opened Options
  import opened Text
  import opened Masker
  import opened MaskerPath
  import opened ShellTrees
  import opened MaskerRuns
  import opened MaskerCorrect
  import opened MaskerWalks

  datatype Bracket = Quoted | Substituted | Braced

  /** Whole fragments, then the point where the text stops. */
  datatype Cut =
    | Whole(ns: Nodes)
    | InSingle(ns: Nodes, s: string)
    | InAnsi(ns: Nodes, s: string)
    | InArith(ns: Nodes, s: string)
    | InBodies(ns: Nodes, filled: seq<Filled>, lines: seq<string>, part: string)
    | Dangling(ns: Nodes)
    | InOperator(ns: Nodes, dash: bool, gap: string, rest: Cut) // <<, and of what it names no more than begun
    | InBracket(ns: Nodes, b: Bracket, rest: Cut)

  function Opening(b: Bracket): string {
    match b
    case Quoted => "\""
    case Substituted => "$("
    case Braced => "${"
  }

  function Within(p: Place, b: Bracket): Place {
    match b
    case Quoted => InQuote
    case Substituted => InCode
    case Braced => Inside(p)
  }

  /** The frame a bracket opens in place p. */
  function Pushed(p: Place, b: Bracket): Frame {
    match b
    case Quoted => Quote
    case Substituted => SUBSTITUTION
    case Braced => Param(Inside(p).inQuote)
  }

  function Lines(lines: seq<string>): string {
    if lines == [] then "" else lines[0] + "\n" + Lines(lines[1..])
  }

  /** Between << and the name. */
  function Dash(dash: bool, gap: string): string {
    (if dash then "-" else "") + gap
  }

  function Tail(c: Cut): string
    decreases c, 0
  {
    match c
    case Whole(_) => ""
    case InSingle(_, s) => "'" + s
    case InAnsi(_, s) => "$'" + s
    case InArith(_, s) => "$((" + s
    case InBodies(_, filled, lines, part) => "\n" + (Bodies(filled, false) + (Lines(lines) + part))
    case Dangling(_) => "\\"
    case InOperator(_, dash, gap, rest) => "<<" + (Dash(dash, gap) + PrintCut(rest))
    case InBracket(_, b, rest) => Opening(b) + PrintCut(rest)
  }

  function PrintCut(c: Cut): string
    decreases c, 1
  {
    PrintAll(c.ns) + Tail(c)
  }

  /** The parentheses of s never close what was open, depth of them, before it. */
  predicate StaysOpen(s: string, depth: nat) {
    if s == "" then depth > 0
    else if s[0] == '(' then StaysOpen(s[1..], depth + 1)
    else if s[0] == ')' then depth > 1 && StaysOpen(s[1..], depth - 1)
    else StaysOpen(s[1..], depth)
  }

  /** Every quote in s is escaped; the last character may be a lone backslash. */
  predicate AnsiOpen(s: string) {
    s == "" || (s[0] != '\'' && if s[0] == '\\' then |s| == 1 || AnsiOpen(s[2..]) else AnsiOpen(s[1..]))
  }

  /** Some bodies are there, and the next has begun. */
  predicate Filling(waiting: seq<Heredoc>, filled: seq<Filled>, lines: seq<string>, part: string) {
    && |filled| < |waiting| && Fill(waiting[..|filled|], filled)
    && NoneCloses(waiting[|filled|], lines) && Without(part, '\n')
  }

  function FirstOf(s: string): Next {
    if s == "" then None else Some(s[0])
  }

  predicate ValidCut(p: Place, c: Cut, waiting: seq<Heredoc>, before: char)
    decreases c, 1
  {
    ValidAll(p, c.ns, waiting, before, FirstOf(Tail(c))) && ValidTail(p, c, WaitsAll(c.ns, waiting))
  }

  /** What may be begun of the name of a here-document: nothing, a backslash, a quote that stays open. */
  predicate Begun(rest: Cut) {
    match rest
    case Whole(ns) => ns.Nil?
    case Dangling(ns) => ns.Nil?
    case InSingle(ns, _) => ns.Nil?
    case InBracket(ns, b, more) => ns.Nil? && b.Quoted? && Without(PrintCut(more), '"')
    case _ => false
  }

  predicate ValidTail(p: Place, c: Cut, waiting: seq<Heredoc>)
    decreases c, 0
  {
    match c
    case Whole(_) => true
    case InSingle(_, s) => (p.InCode? || p == InParam(false)) && Without(s, '\'')
    case InAnsi(_, s) => p.InCode? && AnsiOpen(s)
    case InArith(_, s) => StaysOpen(s, 2)
    case InBodies(_, filled, lines, part) => p.InCode? && Filling(waiting, filled, lines, part)
    case Dangling(_) => true
    case InOperator(_, _, gap, rest) => p.InCode? && Blanks(gap) && Begun(rest) && ValidCut(InCode, rest, waiting, ' ')
    case InBracket(_, b, rest) =>
      && (b.Quoted? ==> !p.InQuote?) && (b.Substituted? ==> !At(PrintCut(rest), 0, "("))
      && ValidCut(Within(p, b), rest, waiting, Last(Opening(b)))
  }

  /** The frames the masker comes to where the text stops. */
  function CutFollow(p: Place, c: Cut, frames: seq<Frame>): (r: Option<seq<Frame>>)
    requires Sound(frames) && Fits(Top(frames), p)
    ensures r.Some? ==> Sound(r.value)
    decreases c
  {
    match FollowAll(p, c.ns, frames)
    case None => None
    case Some(g) =>
      if c.InBracket? then CutFollow(Within(p, c.b), c.rest, g + [Pushed(p, c.b)])
      else if c.InOperator? then CutFollow(p, c.rest, g)
      else Some(g)
  }

  /** The text stops in a single quote. */
  predicate Unclosed(c: Cut) {
    match c
    case InSingle(_, _) => true
    case InBracket(_, _, rest) => Unclosed(rest)
    case InOperator(_, _, _, rest) => Unclosed(rest)
    case _ => false
  }

  function Verdict(c: Cut, frames: seq<Frame>): Why {
    if Unclosed(c) then UnclosedSingle else if |frames| == 1 then Fine else EndsInside
  }

  function OpeningShown(b: Bracket): string {
    match b
    case Quoted => "_"
    case Substituted => "$("
    case Braced => "__"
  }

  /**
   What is left of the text: of the whole fragments what must be, and of the broken one nothing, but for an
   unclosed single quote, where the masker gives up, and an operator that names nothing.
   */
  function ShownTail(p: Place, c: Cut): string
    decreases c, 0
  {
    match c
    case InSingle(_, _) => Tail(c)
    case InOperator(_, dash, gap, rest) => "<<" + Dash(dash, gap) + ShownCut(p, rest)
    case InBracket(_, b, rest) => OpeningShown(b) + ShownCut(Within(p, b), rest)
    case _ => Blanked(Tail(c))
  }

  function ShownCut(p: Place, c: Cut): string
    decreases c, 1
  {
    ShownAll(p, c.ns) + ShownTail(p, c)
  }

  // ---- the last turn ----------------------------------------------------------------------------

  lemma {:induction false} AnsiOpenEnd(text: string, j: nat, s: string)
    requires At(text, j, s) && j + |s| == |text| && AnsiOpen(s)
    ensures AnsiEnd(text, j) >= |text|
    decreases |s|
  {
    AtChars(text, j, s);
    if s != "" && !(s[0] == '\\' && |s| == 1) {
      var d := if s[0] == '\\' then 2 else 1;
      assert text[j + 0] == s[0];
      assert s == s[..d] + s[d..];
      AtSplit(text, j, s[..d], s[d..]);
      AnsiOpenEnd(text, j + d, s[d..]);
    } else if s != "" {
      assert text[j + 0] == s[0];
    }
  }

  lemma {:induction false} OpenArithEnd(text: string, j: nat, s: string, depth: nat)
    requires At(text, j, s) && j + |s| == |text| && StaysOpen(s, depth)
    ensures ArithmeticEnd(text, j, depth) == |text|
    decreases |s|
  {
    if s != "" {
      assert s == [s[0]] + s[1..];
      AtSplit(text, j, [s[0]], s[1..]);
      AtChars(text, j, s);
      OpenArithEnd(text, j + 1, s[1..], if s[0] == '(' then depth + 1 else if s[0] == ')' then depth - 1 else depth);
    }
  }

  /** The lines of a body that nothing closes, and a last one that no newline ends. */
  lemma {:induction false} OpenBodyEnd(text: string, j: nat, doc: Heredoc, lines: seq<string>, part: string)
    requires At(text, j, Lines(lines) + part) && j + |Lines(lines) + part| == |text|
    requires NoneCloses(doc, lines) && Without(part, '\n')
    ensures BodyEnd(text, j, doc) >= |text|
    decreases |lines|
  {
    if lines == [] {
      assert Lines(lines) + part == part;
      OpenLineEnds(text, j, doc, part);
    } else {
      var rest := Lines(lines[1..]) + part;
      assert Lines(lines) + part == lines[0] + "\n" + rest;
      OneLine(text, j, doc, lines[0], rest);
      OpenBodyEnd(text, j + |lines[0]| + 1, doc, lines[1..], part);
    }
  }

  lemma FillingRest(waiting: seq<Heredoc>, filled: seq<Filled>, lines: seq<string>, part: string)
    requires Filling(waiting, filled, lines, part) && filled != []
    ensures DocBody(waiting[0], filled[0].lines, filled[0].last) && Filling(waiting[1..], filled[1..], lines, part)
  {
    assert waiting[..|filled|][0] == waiting[0] && waiting[..|filled|][1..] == waiting[1..][..|filled[1..]|];
  }

  lemma {:induction false} OpenBodiesEnd(text: string, j: nat, waiting: seq<Heredoc>, filled: seq<Filled>,
                                         lines: seq<string>, part: string)
    requires At(text, j, Bodies(filled, false) + (Lines(lines) + part))
    requires j + |Bodies(filled, false) + (Lines(lines) + part)| == |text| && Filling(waiting, filled, lines, part)
    ensures BodiesEnd(text, j, waiting) >= |text|
    decreases |waiting|
  {
    var open := Lines(lines) + part;
    var doc := waiting[0];
    if filled == [] {
      assert Bodies(filled, false) + open == open;
      OpenBodyEnd(text, j, doc, lines, part);
      PastEnds(text, BodyEnd(text, j, doc), waiting[1..]);
    } else {
      var body, more := Body(filled[0].lines, filled[0].last, false), Bodies(filled[1..], false);
      assert Bodies(filled, false) + open == body + (more + open);
      AtSplit(text, j, body, more + open);
      FillingRest(waiting, filled, lines, part);
      BodyRun(text, j, doc, filled[0].lines, filled[0].last, false);
      OpenBodiesEnd(text, j + |body|, waiting[1..], filled[1..], lines, part);
    }
  }

  lemma SingleStops(text: string, i: nat, fs: seq<Frame>, ws: seq<Heredoc>, p: Place, s: string)
    requires Sound(fs) && Fits(Top(fs), p) && (p.InCode? || p == InParam(false))
    requires At(text, i, "'" + s) && i + |"'" + s| == |text| && Without(s, '\'')
    ensures Step(text, i, fs, ws) == Lost
  {
    AtSplit(text, i, "'", s);
    AtOne(text, i, '\'');
    NotWithin(text, i + 1, s, '\'');
    assert Find(text, '\'', i + 1) == |text|;
  }

  lemma AnsiStops(text: string, i: nat, fs: seq<Frame>, ws: seq<Heredoc>, s: string) returns (e: nat)
    requires Sound(fs) && Top(fs).Code? && At(text, i, "$'" + s) && i + |"$'" + s| == |text| && AnsiOpen(s)
    ensures e >= |text| && Step(text, i, fs, ws) == Go(e, fs, ws, Blank)
  {
    AtSplit(text, i, "$'", s);
    AtTwo(text, i, '$', '\'');
    AnsiOpenEnd(text, i + 2, s);
    AnsiTurn(text, i, fs, ws);
    e := AnsiEnd(text, i + 2) + 1;
  }

  lemma ArithStops(text: string, i: nat, fs: seq<Frame>, ws: seq<Heredoc>, p: Place, s: string)
    requires Sound(fs) && Fits(Top(fs), p) && At(text, i, "$((" + s) && i + |"$((" + s| == |text| && StaysOpen(s, 2)
    ensures Step(text, i, fs, ws) == Go(|text|, fs, ws, Blank)
  {
    AtSplit(text, i, "$((", s);
    AtThree(text, i, '$', '(', '(');
    OpenArithEnd(text, i + 3, s, 2);
    ArithOpens(text, i);
    DollarOpens(text, i, p, fs, ws);
  }

  lemma BodiesStop(text: string, i: nat, fs: seq<Frame>, ws: seq<Heredoc>, filled: seq<Filled>, lines: seq<string>,
                   part: string) returns (e: nat)
    requires Sound(fs) && Top(fs).Code? && Filling(ws, filled, lines, part)
    requires var t := Bodies(filled, false) + (Lines(lines) + part); At(text, i, "\n" + t) && i + |"\n" + t| == |text|
    ensures e >= |text| && Step(text, i, fs, ws) == Go(e, fs, [], Blank)
  {
    var t := Bodies(filled, false) + (Lines(lines) + part);
    AtSplit(text, i, "\n", t);
    AtOne(text, i, '\n');
    OpenBodiesEnd(text, i + 1, ws, filled, lines, part);
    e := BodiesEnd(text, i + 1, ws);
    BodiesTurn(text, i, e, fs, ws);
  }

  /** The loop's last turn, when it comes to the end or passes it: what is left is overwritten. */
  lemma LastTurn(text: string, i: nat, e: nat, p: string, fs: seq<Frame>, ws: seq<Heredoc>, after: seq<Heredoc>)
    requires p != "" && At(text, i, p) && i + |p| == |text| <= e && Sound(fs)
    requires Step(text, i, fs, ws) == Go(e, fs, after, Blank)
    ensures MaskFrom(text, i, fs, ws) == Masked(Blanked(p), if |fs| == 1 then Fine else EndsInside)
  {
    BlanksTo(text, i, e, p, fs, ws, after);
    LeadsMasks(text, Spot(i, fs, ws), Blanked(p), Spot(|text|, fs, after));
    Ends(text, |text|, fs, after);
    assert Blanked(p) + "" == Blanked(p);
  }

  lemma Loses(text: string, i: nat, p: string, fs: seq<Frame>, ws: seq<Heredoc>)
    requires p != "" && At(text, i, p) && i + |p| == |text| && Sound(fs) && Step(text, i, fs, ws) == Lost
    ensures MaskFrom(text, i, fs, ws) == Masked(p, UnclosedSingle)
  {
    Unfolds(text, i, fs, ws);
    assert text[i..] == text[i..i + |p|];
  }

  lemma DanglingStops(text: string, i: nat, fs: seq<Frame>, ws: seq<Heredoc>, p: Place)
    requires Sound(fs) && Fits(Top(fs), p) && i + 1 == |text| && text[i] == '\\'
    ensures Step(text, i, fs, ws) == Go(i + 2, fs, ws, Blank)
  {
  }

  // ---- an operator that names nothing -----------------------------------------------------------

  lemma BegunFirst(rest: Cut)
    requires Begun(rest)
    ensures var s := PrintCut(rest);
      && s == Tail(rest)
      && (s != "" ==> s[0] != ' ' && s[0] != '\t' && s[0] != '-' && s[0] != '<' && !Letter(s[0]) && s[0] != '_')
      && (s != "" && s[0] == '\\' ==> |s| == 1)
  {
    assert PrintAll(Nil) + Tail(rest) == Tail(rest);
  }

  /** The quote that begins the name stays open. */
  lemma StaysQuoted(text: string, d: nat, q: char, s: string)
    requires At(text, d, [q] + s) && d + 1 + |s| == |text| && Without(s, q)
    ensures text[d] == q && Find(text, q, d + 1) == |text|
  {
    AtSplit(text, d, [q], s);
    AtOne(text, d, q);
    NotWithin(text, d + 1, s, q);
  }

  lemma BegunQuote(text: string, d: nat, rest: Cut)
    requires Begun(rest) && (rest.InSingle? || rest.InBracket?) && (rest.InSingle? ==> Without(rest.s, '\''))
    requires At(text, d, Tail(rest)) && d + |Tail(rest)| == |text|
    ensures (text[d] == '\'' || text[d] == '"') && Find(text, text[d], d + 1) == |text|
  {
    if rest.InSingle? {
      StaysQuoted(text, d, '\'', rest.s);
    } else {
      StaysQuoted(text, d, '"', PrintCut(rest.rest));
    }
  }

  lemma NamesNothing(text: string, d: nat, rest: Cut, strip: bool)
    requires Begun(rest) && At(text, d, PrintCut(rest)) && d + |PrintCut(rest)| == |text|
    requires (rest.InSingle? ==> Without(rest.s, '\''))
    ensures Delimiter(text, d, strip) == NoDoc
    ensures d < |text| ==> text[d] != ' ' && text[d] != '\t' && text[d] != '-' && text[d] != '<'
  {
    BegunFirst(rest);
    if d < |text| {
      AtChars(text, d, PrintCut(rest));
      assert text[d + 0] == PrintCut(rest)[0];
      if rest.InSingle? || rest.InBracket? {
        BegunQuote(text, d, rest);
      }
    }
  }

  /** So << is kept, two characters like any other. */
  lemma OperatorStops(text: string, i: nat, dash: bool, gap: string, rest: Cut, fs: seq<Frame>, ws: seq<Heredoc>)
    requires Sound(fs) && Top(fs).Code? && Blanks(gap) && Begun(rest) && (rest.InSingle? ==> Without(rest.s, '\''))
    requires var w := "<<" + (Dash(dash, gap) + PrintCut(rest)); At(text, i, w) && i + |w| == |text|
    ensures Step(text, i, fs, ws) == Go(i + 2, fs, ws, Keep)
    ensures At(text, i, "<<") && At(text, i + 2, Dash(dash, gap)) && At(text, i + 2 + |Dash(dash, gap)|, PrintCut(rest))
  {
    var d, s := i + 2 + |Dash(dash, gap)|, PrintCut(rest);
    AtSplit(text, i, "<<", Dash(dash, gap) + s);
    AtSplit(text, i + 2, Dash(dash, gap), s);
    OperatorNames(text, i, d, dash, gap, rest);
    NothingTurn(text, i, fs, ws);
  }

  lemma OperatorNames(text: string, i: nat, d: nat, dash: bool, gap: string, rest: Cut)
    requires Blanks(gap) && Begun(rest) && (rest.InSingle? ==> Without(rest.s, '\''))
    requires At(text, i, "<<") && At(text, i + 2, Dash(dash, gap)) && d == i + 2 + |Dash(dash, gap)|
    requires At(text, d, PrintCut(rest)) && d + |PrintCut(rest)| == |text|
    ensures Two(text, i, '<', '<') && !Three(text, i, '<', '<', '<') && HeredocAt(text, i) == NoDoc
  {
    AtTwo(text, i, '<', '<');
    NamesNothing(text, d, rest, dash);
    GapStops(text, i + 2, d, dash, gap);
    NoneNamed(text, i, dash, d);
  }

  /** The dash is read, if it is there, and the blanks are skipped. */
  lemma GapStops(text: string, g: nat, d: nat, dash: bool, gap: string)
    requires At(text, g, Dash(dash, gap)) && d == g + |Dash(dash, gap)| && Blanks(gap)
    requires d < |text| ==> text[d] != ' ' && text[d] != '\t' && text[d] != '-' && text[d] != '<'
    ensures (g < |text| && text[g] == '-') <==> dash
    ensures SkipBlanks(text, if dash then g + 1 else g) == d && (g < |text| ==> text[g] != '<')
  {
    AtSplit(text, g, if dash then "-" else "", gap);
    AtOne(text, g, '-');
    var b := if dash then g + 1 else g;
    AtChars(text, b, gap);
    if gap != "" {
      assert text[b + 0] == gap[0];
    }
    forall k | b <= k < d ensures text[k] == ' ' || text[k] == '\t' {
      assert text[b + (k - b)] == gap[k - b];
    }
  }

  lemma NoneNamed(text: string, i: nat, dash: bool, d: nat)
    requires Two(text, i, '<', '<') && d <= |text| && Delimiter(text, d, dash) == NoDoc
    requires (i + 2 < |text| && text[i + 2] == '-') <==> dash
    requires SkipBlanks(text, if dash then i + 3 else i + 2) == d
    ensures HeredocAt(text, i) == NoDoc
  {
  }

  lemma NothingTurn(text: string, i: nat, fs: seq<Frame>, ws: seq<Heredoc>)
    requires Two(text, i, '<', '<') && !Three(text, i, '<', '<', '<') && HeredocAt(text, i) == NoDoc
    requires Sound(fs) && Top(fs).Code?
    ensures Step(text, i, fs, ws) == Go(i + 2, fs, ws, Keep)
  {
  }

  lemma DashIsPlain(dash: bool, gap: string, next: Next)
    requires Blanks(gap)
    ensures var d := Dash(dash, gap);
      PlainCode(d, '<') && Without(d, '\n') && (d != "" ==> PlainJoins(InCode, Last(d), next))
  {
    var d := Dash(dash, gap);
    assert forall k :: 0 <= k < |d| ==> d[k] == '-' || d[k] == ' ' || d[k] == '\t';
    NoWordStands(d, '<');
  }

  /** What stands between << and the name is kept. */
  lemma DashRun(text: string, i: nat, dash: bool, gap: string, fs: seq<Frame>, ws: seq<Heredoc>)
    requires Sound(fs) && Top(fs).Code? && Blanks(gap) && At(text, i, Dash(dash, gap)) && Before(text, i, '<')
    ensures Leads(text, Spot(i, fs, ws), Dash(dash, gap), Spot(i + |Dash(dash, gap)|, fs, ws))
  {
    var d := Dash(dash, gap);
    DashIsPlain(dash, gap, CharAt(text, i + |d|));
    if d == "" {
      Stay(text, Spot(i, fs, ws));
    } else {
      assert d[0..] == d;
      PlainRun(text, i, d, 0, '<', fs, ws);
    }
  }

  /** From an operator that names nothing to what is begun of the name. */
  lemma PastOperator(text: string, i: nat, j: nat, dash: bool, gap: string, rest: Cut, fs: seq<Frame>, ws: seq<Heredoc>)
    requires Sound(fs) && Top(fs).Code? && Blanks(gap) && Begun(rest) && (rest.InSingle? ==> Without(rest.s, '\''))
    requires var w := "<<" + (Dash(dash, gap) + PrintCut(rest)); At(text, i, w) && i + |w| == |text|
    requires j == i + 2 + |Dash(dash, gap)|
    ensures At(text, j, PrintCut(rest)) && j + |PrintCut(rest)| == |text|
    ensures MaskFrom(text, i, fs, ws) == Prepend("<<" + Dash(dash, gap), MaskFrom(text, j, fs, ws))
  {
    OperatorStops(text, i, dash, gap, rest, fs, ws);
    AtChars(text, i, "<<");
    assert text[i + 1] == "<<"[1];
    Turned(text, Spot(i, fs, ws), "<<", Spot(i + 2, fs, ws), Keep);
    DashRun(text, i + 2, dash, gap, fs, ws);
    Chain(text, Spot(i, fs, ws), "<<", Spot(i + 2, fs, ws), Dash(dash, gap), Spot(j, fs, ws));
    LeadsMasks(text, Spot(i, fs, ws), "<<" + Dash(dash, gap), Spot(j, fs, ws));
  }

  // ---- the theorem ------------------------------------------------------------------------------

  /** A text that stops without going on in a bracket or an operator: what the loop makes of the rest. */
  lemma TailStops(text: string, j: nat, fs: seq<Frame>, ws: seq<Heredoc>, p: Place, c: Cut)
    requires Sound(fs) && Fits(Top(fs), p) && At(text, j, Tail(c)) && j + |Tail(c)| == |text|
    requires !c.InBracket? && !c.InOperator? && ValidTail(p, c, ws)
    ensures MaskFrom(text, j, fs, ws) == Masked(ShownTail(p, c), Verdict(c, fs))
  {
    match c
    case Whole(_) =>
      Ends(text, j, fs, ws);
      assert Blanked("") == "";
    case InSingle(_, s) =>
      SingleStops(text, j, fs, ws, p, s);
      Loses(text, j, Tail(c), fs, ws);
    case InAnsi(_, s) =>
      var e := AnsiStops(text, j, fs, ws, s);
      LastTurn(text, j, e, Tail(c), fs, ws, ws);
    case InArith(_, s) =>
      ArithStops(text, j, fs, ws, p, s);
      LastTurn(text, j, |text|, Tail(c), fs, ws, ws);
    case InBodies(_, filled, lines, part) =>
      var e := BodiesStop(text, j, fs, ws, filled, lines, part);
      LastTurn(text, j, e, Tail(c), fs, ws, []);
    case Dangling(_) =>
      AtOne(text, j, '\\');
      DanglingStops(text, j, fs, ws, p);
      LastTurn(text, j, j + 2, Tail(c), fs, ws, ws);
  }

  lemma BracketOpens(text: string, i: nat, fs: seq<Frame>, ws: seq<Heredoc>, p: Place, b: Bracket, rest: string)
    requires Sound(fs) && Fits(Top(fs), p) && At(text, i, Opening(b) + rest) && i + |Opening(b) + rest| == |text|
    requires (b.Quoted? ==> !p.InQuote?) && (b.Substituted? ==> !At(rest, 0, "("))
    ensures var gs, j := fs + [Pushed(p, b)], i + |Opening(b)|;
      && Ready(text, j, gs, Within(p, b), Last(Opening(b))) && At(text, j, rest) && j + |rest| == |text|
      && Leads(text, Spot(i, fs, ws), OpeningShown(b), Spot(j, gs, ws))
  {
    RowCut(text, i, Opening(b), rest);
    match b
    case Quoted =>
      AtOne(text, i, '"');
      OpenDouble(text, i, p, fs, ws);
    case Substituted =>
      NotArithmetic(text, i, rest);
      OpenSubst(text, i, p, fs, ws);
    case Braced =>
      AtTwo(text, i, '$', '{');
      OpenBraces(text, i, p, fs, ws);
  }

  /** Past a bracket that opens. */
  lemma IntoBracket(text: string, i: nat, fs: seq<Frame>, ws: seq<Heredoc>, p: Place, b: Bracket, rest: string,
                    j: nat, gs: seq<Frame>)
    requires Sound(fs) && Fits(Top(fs), p) && At(text, i, Opening(b) + rest) && i + |Opening(b) + rest| == |text|
    requires (b.Quoted? ==> !p.InQuote?) && (b.Substituted? ==> !At(rest, 0, "("))
    requires j == i + |Opening(b)| && gs == fs + [Pushed(p, b)]
    ensures Ready(text, j, gs, Within(p, b), Last(Opening(b))) && At(text, j, rest) && j + |rest| == |text|
    ensures MaskFrom(text, i, fs, ws) == Prepend(OpeningShown(b), MaskFrom(text, j, gs, ws))
  {
    BracketOpens(text, i, fs, ws, p, b, rest);
    LeadsMasks(text, Spot(i, fs, ws), OpeningShown(b), Spot(j, gs, ws));
  }

  lemma TailBegins(text: string, j: nat, s: string)
    requires At(text, j, s) && j + |s| == |text|
    ensures CharAt(text, j) == FirstOf(s)
  {
    AtChars(text, j, s);
    if s != "" {
      assert text[j + 0] == s[0];
    }
  }

  /** The point where whole fragments end and the broken one begins. */
  lemma AtTail(text: string, i: nat, fs: seq<Frame>, ws: seq<Heredoc>, p: Place, c: Cut, before: char, j: nat)
    requires Ready(text, i, fs, p, before) && ValidCut(p, c, ws, before) && j == i + |PrintAll(c.ns)|
    requires At(text, i, PrintCut(c)) && i + |PrintCut(c)| == |text| && FollowAll(p, c.ns, fs).Some?
    ensures At(text, j, Tail(c)) && j + |Tail(c)| == |text|
    ensures var gs, vs := FollowAll(p, c.ns, fs).value, WaitsAll(c.ns, ws);
      && Sound(gs) && Fits(Top(gs), p)
      && MaskFrom(text, i, fs, ws) == Prepend(ShownAll(p, c.ns), MaskFrom(text, j, gs, vs))
  {
    AtSplit(text, i, PrintAll(c.ns), Tail(c));
    TailBegins(text, j, Tail(c));
    MasksAll(text, i, j, fs, ws, p, c.ns, before, FirstOf(Tail(c)));
    LeadsMasks(text, Spot(i, fs, ws), ShownAll(p, c.ns), Spot(j, FollowAll(p, c.ns, fs).value, WaitsAll(c.ns, ws)));
  }

  /** What the masker makes of a text that stops anywhere, and the very reason it gives. */
  lemma {:induction false} CutFrom(text: string, i: nat, fs: seq<Frame>, ws: seq<Heredoc>, p: Place, c: Cut, before: char)
    requires Ready(text, i, fs, p, before) && ValidCut(p, c, ws, before)
    requires At(text, i, PrintCut(c)) && i + |PrintCut(c)| == |text| && CutFollow(p, c, fs).Some?
    ensures MaskFrom(text, i, fs, ws) == Masked(ShownCut(p, c), Verdict(c, CutFollow(p, c, fs).value))
    decreases c, 1
  {
    var j := i + |PrintAll(c.ns)|;
    AtTail(text, i, fs, ws, p, c, before, j);
    TailFrom(text, j, FollowAll(p, c.ns, fs).value, WaitsAll(c.ns, ws), p, c, CutFollow(p, c, fs).value);
  }

  /** Where the rest of a text that stops ends, from its broken fragment on. */
  predicate EndsAt(p: Place, c: Cut, gs: seq<Frame>, end: seq<Frame>)
    requires Sound(gs) && Fits(Top(gs), p)
  {
    if c.InBracket? then CutFollow(Within(p, c.b), c.rest, gs + [Pushed(p, c.b)]) == Some(end)
    else if c.InOperator? then CutFollow(p, c.rest, gs) == Some(end)
    else gs == end
  }

  lemma TailFrom(text: string, j: nat, gs: seq<Frame>, vs: seq<Heredoc>, p: Place, c: Cut, end: seq<Frame>)
    requires Sound(gs) && Fits(Top(gs), p) && ValidTail(p, c, vs) && At(text, j, Tail(c)) && j + |Tail(c)| == |text|
    requires EndsAt(p, c, gs, end)
    ensures MaskFrom(text, j, gs, vs) == Masked(ShownTail(p, c), Verdict(c, end))
    decreases c, 0
  {
    if c.InBracket? {
      var hs, k := gs + [Pushed(p, c.b)], j + |Opening(c.b)|;
      IntoBracket(text, j, gs, vs, p, c.b, PrintCut(c.rest), k, hs);
      CutFrom(text, k, hs, vs, Within(p, c.b), c.rest, Last(Opening(c.b)));
    } else if c.InOperator? {
      OperatorFrom(text, j, gs, vs, p, c, c.rest, end);
    } else {
      TailStops(text, j, gs, vs, p, c);
    }
  }

  lemma OperatorFrom(text: string, j: nat, gs: seq<Frame>, vs: seq<Heredoc>, p: Place, c: Cut, rest: Cut, end: seq<Frame>)
    requires Sound(gs) && Fits(Top(gs), p) && ValidTail(p, c, vs) && At(text, j, Tail(c)) && j + |Tail(c)| == |text|
    requires c.InOperator? && c.rest == rest && EndsAt(p, c, gs, end)
    ensures MaskFrom(text, j, gs, vs) == Masked(ShownTail(p, c), Verdict(c, end))
    decreases rest, 1
  {
    var k := j + 2 + |Dash(c.dash, c.gap)|;
    OperatorIs(p, c, rest, vs, gs, end);
    BegunIs(rest, gs, vs, end);
    PastOperator(text, j, k, c.dash, c.gap, rest, gs, vs);
    TailFrom(text, k, gs, vs, InCode, rest, end);
  }

  lemma OperatorIs(p: Place, c: Cut, rest: Cut, vs: seq<Heredoc>, gs: seq<Frame>, end: seq<Frame>)
    requires c.InOperator? && c.rest == rest && ValidTail(p, c, vs) && Sound(gs) && Fits(Top(gs), p) && EndsAt(p, c, gs, end)
    ensures p.InCode? && Blanks(c.gap) && Begun(rest)
    ensures ValidCut(InCode, rest, vs, ' ') && CutFollow(InCode, rest, gs) == Some(end)
    ensures Tail(c) == "<<" + (Dash(c.dash, c.gap) + PrintCut(rest)) && Verdict(c, end) == Verdict(rest, end)
    ensures ShownTail(p, c) == "<<" + Dash(c.dash, c.gap) + ShownCut(InCode, rest)
  {
  }

  /** What is begun has no fragments before it. */
  lemma BegunIs(rest: Cut, gs: seq<Frame>, vs: seq<Heredoc>, end: seq<Frame>)
    requires Sound(gs) && Top(gs).Code? && Begun(rest) && ValidCut(InCode, rest, vs, ' ')
    requires CutFollow(InCode, rest, gs) == Some(end)
    ensures ValidTail(InCode, rest, vs) && (rest.InSingle? ==> Without(rest.s, '\'')) && EndsAt(InCode, rest, gs, end)
    ensures PrintCut(rest) == Tail(rest) && ShownCut(InCode, rest) == ShownTail(InCode, rest)
  {
    assert PrintAll(Nil) + Tail(rest) == Tail(rest);
    assert ShownAll(InCode, Nil) + ShownTail(InCode, rest) == ShownTail(InCode, rest);
  }

  // ---- whole scripts ----------------------------------------------------------------------------

  /** A text that stops, read from the start of a script. */
  predicate LegibleCut(c: Cut) {
    ValidCut(InCode, c, [], '\n')
  }

  function CutFollowed(c: Cut): Option<seq<Frame>> {
    CutFollow(InCode, c, [BOTTOM])
  }

  /**
   For every text that stops somewhere, at any depth, with the masker in its place till there: what is
   left of it is what must be of its whole fragments, and nothing of the broken one but live code; and the
   masker says that it stops if and only if a single quote is open, or the walk over the parentheses leaves
   it in a quote, a parameter or a substitution.
   */
  lemma CutIsRight(c: Cut)
    requires LegibleCut(c) && CutFollowed(c).Some?
    ensures MaskSpec(PrintCut(c)) == Masked(ShownCut(InCode, c), Verdict(c, CutFollowed(c).value))
    ensures MaskSpec(PrintCut(c)).why != Fine <==> Unclosed(c) || |CutFollowed(c).value| > 1
  {
    var text := PrintCut(c);
    assert text[0..|text|] == text;
    CutFrom(text, 0, [BOTTOM], [], InCode, c, '\n');
  }

  // ---- when the substitutions are sealed --------------------------------------------------------

  /** No substitution has ended before its own last parenthesis; the open ones have not ended yet. */
  predicate SealedCut(c: Cut, f: Frame)
    decreases c
  {
    && SealedAll(c.ns) && (f.Code? ==> OwnAll(c.ns, f).Some?)
    && (c.InBracket? ==> SealedCut(c.rest, Pushed(InCode, c.b)))
    && (c.InOperator? && c.rest.InBracket? ==> SealedCut(c.rest.rest, Quote))
  }

  /** What is open outermost is something the masker keeps a frame for, or a single quote. */
  predicate Noticed(c: Cut) {
    c.InSingle? || c.InBracket? || (c.InOperator? && (c.rest.InSingle? || c.rest.InBracket?))
  }

  function Brackets(c: Cut): nat {
    match c
    case InBracket(_, _, rest) => 1 + Brackets(rest)
    case InOperator(_, _, _, rest) => Brackets(rest)
    case _ => 0
  }

  lemma BegunBracket(p: Place, c: Cut, vs: seq<Heredoc>)
    requires c.InOperator? && c.rest.InBracket? && ValidTail(p, c, vs)
    ensures c.rest.ns.Nil? && c.rest.b.Quoted? && ValidCut(InQuote, c.rest.rest, vs, '"')
  {
    var rest := c.rest;
    assert ValidCut(InCode, rest, vs, ' ') && WaitsAll(Nil, vs) == vs;
    assert ValidTail(InCode, rest, vs);
  }

  lemma {:induction false} SealedCutFollow(p: Place, c: Cut, ws: seq<Heredoc>, before: char, fs: seq<Frame>, f: Frame)
    requires Sound(fs) && Fits(Top(fs), p) && ValidCut(p, c, ws, before) && SealedCut(c, f) && (p.InCode? ==> f == Top(fs))
    ensures CutFollow(p, c, fs).Some? && |CutFollow(p, c, fs).value| == |fs| + Brackets(c)
    decreases c
  {
    SealedRow(p, c.ns, fs);
    var gs, vs := FollowAll(p, c.ns, fs).value, WaitsAll(c.ns, ws);
    if c.InBracket? {
      SealedCutFollow(Within(p, c.b), c.rest, vs, Last(Opening(c.b)), gs + [Pushed(p, c.b)], Pushed(InCode, c.b));
    } else if c.InOperator? && c.rest.InBracket? {
      var rest := c.rest;
      BegunBracket(p, c, vs);
      SealedCutFollow(InQuote, rest.rest, vs, Last(Opening(rest.b)), gs + [Quote], Quote);
      assert FollowAll(InCode, Nil, gs) == Some(gs);
    }
  }

  /** With the substitutions sealed, a cut is noticed if and only if a quote, substitution or parameter is open. */
  lemma SealedCutIsNoticed(c: Cut)
    requires LegibleCut(c) && SealedCut(c, BOTTOM)
    ensures MaskSpec(PrintCut(c)).why != Fine <==> Noticed(c)
  {
    SealedCutFollow(InCode, c, [], '\n', [BOTTOM], BOTTOM);
    CutIsRight(c);
    assert ValidTail(InCode, c, WaitsAll(c.ns, []));
    assert c.InOperator? ==> Begun(c.rest);
  }

  // ---- the last character -----------------------------------------------------------------------

  function Append(ns: Nodes, n: Node): Nodes {
    match ns
    case Nil => Cons(n, Nil)
    case Cons(m, rest) => Cons(m, Append(rest, n))
  }

  predicate Quotes(n: Node) {
    n.Single? || n.Double? || n.Subst? || n.Braces?
  }

  lemma {:induction false} Appended(ns: Nodes, n: Node, ws: seq<Heredoc>, before: char, after: Next)
    requires ValidAll(InCode, Append(ns, n), ws, before, after) && Quotes(n)
    ensures ValidAll(InCode, ns, ws, before, Some(Print(n)[0])) && Valid(InCode, n, WaitsAll(ns, ws), ' ')
    ensures PrintAll(Append(ns, n)) == PrintAll(ns) + Print(n)
    decreases ns
  {
    match ns
    case Nil =>
      assert PrintAll(Cons(n, Nil)) == Print(n) + "" == Print(n);
    case Cons(m, rest) =>
      Appended(rest, n, Waits(m, ws), Last(Print(m)), after);
      assert Print(m) + (PrintAll(rest) + Print(n)) == PrintAll(ns) + Print(n);
      assert NextOf(Append(rest, n), after) == NextOf(rest, Some(Print(n)[0]));
  }

  /** A row that may stand before something may stand at the end. */
  lemma {:induction false} ValidAtEnd(p: Place, ns: Nodes, ws: seq<Heredoc>, before: char, after: Next)
    requires ValidAll(p, ns, ws, before, after)
    ensures ValidAll(p, ns, ws, before, None)
    decreases ns
  {
    if ns.Cons? {
      ValidAtEnd(p, ns.tail, Waits(ns.head, ws), Last(Print(ns.head)), after);
    }
  }

  /** The tree that ends in n, without its last character. */
  function Dropped(ns: Nodes, n: Node): Cut
    requires Quotes(n)
  {
    match n
    case Single(s) => InSingle(ns, s)
    case Double(b) => InBracket(ns, Quoted, Whole(b))
    case Subst(b) => InBracket(ns, Substituted, Whole(b))
    case Braces(b) => InBracket(ns, Braced, Whole(b))
  }

  function Opened(n: Node): string
    requires Quotes(n)
  {
    match n
    case Single(s) => "'" + s
    case Double(b) => "\"" + PrintAll(b)
    case Subst(b) => "$(" + PrintAll(b)
    case Braces(b) => "${" + PrintAll(b)
  }

  lemma DroppedPrints(ns: Nodes, n: Node)
    requires Quotes(n)
    ensures var text := PrintAll(ns) + Print(n); text != "" && text[..|text| - 1] == PrintCut(Dropped(ns, n))
  {
    var last := if n.Single? then "'" else if n.Double? then "\"" else if n.Subst? then ")" else "}";
    assert Print(n) == Opened(n) + last;
    assert PrintAll(ns) + Print(n) == (PrintAll(ns) + Opened(n)) + last;
    TailIsOpened(ns, n);
  }

  lemma TailIsOpened(ns: Nodes, n: Node)
    requires Quotes(n)
    ensures Tail(Dropped(ns, n)) == Opened(n)
  {
    if !n.Single? {
      assert PrintCut(Whole(n.body)) == PrintAll(n.body) + "" == PrintAll(n.body);
    }
  }

  /** A substitution in code that a parenthesis ends too soon leaves the masker in the frames around it. */
  lemma {:induction false} EndsInCode(ns: Nodes, base: seq<Frame>, f: Frame)
    requires |base| == 1 && Sound(base) && f.Code? && f.sub && SealedAll(ns) && OwnAll(ns, f) == None
    ensures FollowAll(InCode, ns, base + [f]).Some? && |FollowAll(InCode, ns, base + [f]).value| == 1
    decreases ns
  {
    var fs := base + [f];
    var n, rest := ns.head, ns.tail;
    SealedNode(InCode, n, fs);
    match Own(n, f)
    case None =>
      assert AfterClose(fs) == base && Follow(InCode, n, fs) == Some(base);
      BottomStays(rest, Top(base));
      SealedRow(InCode, rest, base);
    case Some(g) =>
      assert Replace(fs, g) == base + [g];
      EndsInCode(rest, base, g);
  }

  /** The frames where the text without its last character stops. */
  lemma DroppedFollows(ns: Nodes, n: Node)
    requires Quotes(n) && SealedAll(ns) && (!n.Single? ==> SealedAll(n.body))
    ensures var c := Dropped(ns, n);
      CutFollowed(c).Some? && (!n.Single? ==>
        (|CutFollowed(c).value| > 1 <==> (n.Subst? ==> OwnAll(n.body, SUBSTITUTION).Some?)))
  {
    var c := Dropped(ns, n);
    BottomStays(ns, BOTTOM);
    SealedRow(InCode, ns, [BOTTOM]);
    var gs := FollowAll(InCode, ns, [BOTTOM]).value;
    if !n.Single? {
      var q, hs := Within(InCode, c.b), gs + [Pushed(InCode, c.b)];
      assert CutFollow(q, Whole(n.body), hs) == FollowAll(q, n.body, hs);
    }
    if n.Subst? && OwnAll(n.body, SUBSTITUTION).None? {
      EndsInCode(n.body, gs, SUBSTITUTION);
    } else if !n.Single? {
      SealedRow(Within(InCode, c.b), n.body, gs + [Pushed(InCode, c.b)]);
    }
  }

  lemma DroppedIsCut(ns: Nodes, n: Node)
    requires Script(Append(ns, n)) && Quotes(n)
    ensures LegibleCut(Dropped(ns, n))
    ensures var text := PrintAll(Append(ns, n)); text != "" && text[..|text| - 1] == PrintCut(Dropped(ns, n))
  {
    Appended(ns, n, [], '\n', None);
    DroppedPrints(ns, n);
    var c := Dropped(ns, n);
    TailIsOpened(ns, n);
    assert FirstOf(Tail(c)) == Some(Print(n)[0]);
    if !n.Single? {
      var q, ws := Within(InCode, c.b), WaitsAll(ns, []);
      assert PrintCut(Whole(n.body)) == PrintAll(n.body) + "" == PrintAll(n.body);
      ValidAtEnd(q, n.body, ws, Last(Opening(c.b)), Some(Last(Print(n))));
      assert ValidCut(q, Whole(n.body), ws, Last(Opening(c.b)));
    }
  }

  lemma {:induction false} SealedAppend(ns: Nodes, n: Node)
    ensures SealedAll(Append(ns, n)) <==> SealedAll(ns) && Sealed(n)
    decreases ns
  {
    if ns.Cons? {
      SealedAppend(ns.tail, n);
    }
  }

  /**
   The closing character of the last quote or parameter cannot be lost unseen, nor that of the last
   substitution, if and only if no other parenthesis has ended it before.
   */
  lemma DroppedCloseIsNoticed(ns: Nodes, n: Node)
    requires Script(Append(ns, n)) && Quotes(n) && SealedAll(ns) && (!n.Single? ==> SealedAll(n.body))
    ensures var text := PrintAll(Append(ns, n));
      && text != ""
      && (MaskSpec(text[..|text| - 1]).why != Fine <==> (n.Subst? ==> OwnAll(n.body, SUBSTITUTION).Some?))
      && (Sealed(n) ==> MaskSpec(text).why == Fine && MaskSpec(text[..|text| - 1]).why != Fine)
  {
    DroppedIsCut(ns, n);
    DroppedFollows(ns, n);
    CutIsRight(Dropped(ns, n));
    if Sealed(n) {
      SealedAppend(ns, n);
      SealedIsRight(Append(ns, n));
    }
  }
}
