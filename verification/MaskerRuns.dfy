/** What the masker's loop does over each kind of fragment that nests nothing. */
module MaskerRuns {
  import opened Options
  import opened Text
  import opened Masker
  import opened MaskerPath
  import opened ShellTrees

  /** The character at i, if the text goes on there. */
  function CharAt(text: string, i: nat): Next {
    if i < |text| then Some(text[i]) else None
  }

  /** The character before i, where the start of the text counts as the start of a line. */
  predicate Before(text: string, i: nat, c: char) {
    i <= |text| && c == if i == 0 then '\n' else text[i - 1]
  }

  // ---- cutting the text -------------------------------------------------------------------------

  lemma Around(text: string, i: nat, a: string, p: string, c: string)
    requires At(text, i, a + p + c)
    ensures At(text, i, a) && At(text, i + |a|, p) && At(text, i + |a| + |p|, c)
  {
    AtSplit(text, i, a + p, c);
    AtSplit(text, i, a, p);
  }

  lemma AtOne(text: string, i: nat, c: char)
    ensures At(text, i, [c]) <==> i < |text| && text[i] == c
  {
    if i < |text| {
      assert text[i..i + 1] == [text[i]];
    }
  }

  lemma AtTwo(text: string, i: nat, a: char, b: char)
    ensures At(text, i, [a, b]) <==> Two(text, i, a, b)
  {
    if i + 1 < |text| {
      assert text[i..i + 2] == [text[i], text[i + 1]];
    }
  }

  lemma AtThree(text: string, i: nat, a: char, b: char, c: char)
    ensures At(text, i, [a, b, c]) <==> Three(text, i, a, b, c)
  {
    if i + 2 < |text| {
      assert text[i..i + 3] == [text[i], text[i + 1], text[i + 2]];
    }
  }

  /** A line, its newline, and what follows. */
  lemma LineCut(text: string, j: nat, line: string, rest: string)
    requires At(text, j, line + "\n" + rest)
    ensures At(text, j, line) && j + |line| < |text| && text[j + |line|] == '\n' && At(text, j + |line| + 1, rest)
  {
    Around(text, j, line, "\n", rest);
    AtOne(text, j + |line|, '\n');
  }

  lemma FindPast(text: string, j: nat, s: string, c: char)
    requires At(text, j, s) && Without(s, c) && j + |s| < |text| && text[j + |s|] == c
    ensures Find(text, c, j) == j + |s|
  {
    NotWithin(text, j, s, c);
  }

  lemma NotWithin(text: string, j: nat, s: string, c: char)
    requires At(text, j, s) && Without(s, c)
    ensures forall k :: j <= k < j + |s| ==> text[k] != c
  {
    AtChars(text, j, s);
    forall k | j <= k < j + |s| ensures text[k] != c {
      assert text[j + (k - j)] == s[k - j];
    }
  }

  // ---- plain text -------------------------------------------------------------------------------

  lemma {:induction false} WordEndShift(text: string, i: nat, s: string, k: nat)
    requires At(text, i, s) && k <= |s| && (WordEnd(s, k) == |s| ==> !GoesOn(CharAt(text, i + |s|)))
    ensures WordEnd(text, i + k) == i + WordEnd(s, k)
    decreases |s| - k
  {
    AtChars(text, i, s);
    if k < |s| && IsWordChar(s[k]) {
      WordEndShift(text, i, s, k + 1);
    }
  }

  /** A character of live code that opens nothing, as the loop's tests see it. */
  predicate Ordinary(text: string, j: nat)
    requires j < |text|
  {
    var c := text[j];
    && c != '\\' && c != '\'' && c != '"' && c != '(' && c != ')'
    && !CommentAt(text, j) && !Opens(text, j) && !Two(text, j, '$', '\'') && !Two(text, j, '<', '<')
  }

  lemma PlainIsOrdinary(text: string, i: nat, s: string, k: nat, before: char)
    requires At(text, i, s) && k < |s| && PlainCode(s, before) && Before(text, i, before)
    requires PlainJoins(InCode, Last(s), CharAt(text, i + |s|))
    ensures text[i + k] == s[k] && Ordinary(text, i + k) && Before(text, i + k, Prior(s, k, before))
  {
    AtChars(text, i, s);
    assert DollarFits(s, k, true) && CodeFits(s, k, before);
    assert k > 0 ==> text[i + (k - 1)] == s[k - 1];
    if k + 1 < |s| {
      assert text[i + (k + 1)] == s[k + 1];
    } else {
      assert Last(s) == s[k] && i + k + 1 == i + |s|;
    }
  }

  lemma OrdinaryTurn(text: string, j: nat, frames: seq<Frame>, waiting: seq<Heredoc>)
    requires j < |text| && Ordinary(text, j) && !WordAt(text, j) && (waiting == [] || text[j] != '\n')
    requires Sound(frames) && Top(frames).Code?
    ensures Step(text, j, frames, waiting) == Go(j + 1, frames, waiting, Keep)
  {
  }

  lemma WordTurn(text: string, j: nat, frames: seq<Frame>, waiting: seq<Heredoc>)
    requires j < |text| && Ordinary(text, j) && WordAt(text, j)
    requires Sound(frames) && Top(frames).Code?
    requires text[j..WordEnd(text, j)] != "case" && text[j..WordEnd(text, j)] != "esac"
    ensures Step(text, j, frames, waiting) == Go(WordEnd(text, j), frames, waiting, Keep)
  {
    assert Replace(frames, Top(frames)) == frames;
  }

  /** Text without the letters they begin with holds neither of the two words. */
  lemma NoWordStands(s: string, before: char)
    requires Without(s, 'c') && Without(s, 'e')
    ensures Words(s, before)
  {
    forall k: nat | k < |s| ensures !WordStands(s, k, "case") && !WordStands(s, k, "esac") {
      StandsFrom(s, k, "case");
      StandsFrom(s, k, "esac");
    }
  }

  lemma StandsFrom(s: string, k: nat, w: string)
    requires w != "" && k < |s|
    ensures WordStands(s, k, w) ==> s[k] == w[0]
  {
    if WordStands(s, k, w) {
      AtChars(s, k, w);
      assert s[k + 0] == w[0];
    }
  }

  lemma PlainWord(text: string, i: nat, s: string, k: nat, before: char)
    requires At(text, i, s) && k < |s| && PlainJoins(InCode, Last(s), CharAt(text, i + |s|)) && Words(s, before)
    requires text[i + k] == s[k] && WordAt(text, i + k) && Before(text, i + k, Prior(s, k, before))
    ensures var e := WordEnd(s, k);
      && k < e <= |s| && WordEnd(text, i + k) == i + e && text[i + k..i + e] == s[k..e]
      && s[k..e] != "case" && s[k..e] != "esac"
  {
    assert IsAlpha(s[k]) && !MidWord(Prior(s, k, before));
    var e := WordEnd(s, k);
    assert e == |s| ==> IsWordChar(s[e - 1]);
    assert s[k..e] == "case" ==> WordStands(s, k, "case");
    assert s[k..e] == "esac" ==> WordStands(s, k, "esac");
    WordEndShift(text, i, s, k);
    AtPart(text, i, s, k, e);
  }

  lemma AtPart(text: string, i: nat, s: string, k: nat, e: nat)
    requires At(text, i, s) && k <= e <= |s|
    ensures At(text, i + k, s[k..e])
  {
    assert s == s[..k] + (s[k..e] + s[e..]);
    AtSplit(text, i, s[..k], s[k..e] + s[e..]);
    AtSplit(text, i + k, s[k..e], s[e..]);
  }

  /** In plain code the loop keeps what it reads, a character or a word at a time. */
  lemma PlainTurn(text: string, i: nat, s: string, k: nat, before: char, frames: seq<Frame>, waiting: seq<Heredoc>)
    returns (e: nat)
    requires At(text, i, s) && k < |s| && Before(text, i, before) && PlainJoins(InCode, Last(s), CharAt(text, i + |s|))
    requires Sound(frames) && Top(frames).Code? && PlainCode(s, before)
    requires waiting == [] || Without(s, '\n')
    ensures k < e <= |s| && Step(text, i + k, frames, waiting) == Go(i + e, frames, waiting, Keep)
    ensures At(text, i + k, s[k..e])
  {
    PlainIsOrdinary(text, i, s, k, before);
    if WordAt(text, i + k) {
      e := PlainWordTurn(text, i, s, k, before, frames, waiting);
    } else {
      e := k + 1;
      OrdinaryTurn(text, i + k, frames, waiting);
    }
    AtPart(text, i, s, k, e);
  }

  lemma PlainWordTurn(text: string, i: nat, s: string, k: nat, before: char, frames: seq<Frame>, waiting: seq<Heredoc>)
    returns (e: nat)
    requires At(text, i, s) && k < |s| && PlainJoins(InCode, Last(s), CharAt(text, i + |s|)) && Words(s, before)
    requires text[i + k] == s[k] && WordAt(text, i + k) && Before(text, i + k, Prior(s, k, before))
    requires Sound(frames) && Top(frames).Code? && Ordinary(text, i + k)
    ensures k < e <= |s| && Step(text, i + k, frames, waiting) == Go(i + e, frames, waiting, Keep)
  {
    PlainWord(text, i, s, k, before);
    e := WordEnd(s, k);
    WordTurn(text, i + k, frames, waiting);
  }

  lemma {:induction false} PlainRun(text: string, i: nat, s: string, k: nat, before: char,
                                    frames: seq<Frame>, waiting: seq<Heredoc>)
    requires At(text, i, s) && k <= |s| && s != "" && Before(text, i, before)
    requires PlainJoins(InCode, Last(s), CharAt(text, i + |s|))
    requires Sound(frames) && Top(frames).Code? && PlainCode(s, before)
    requires waiting == [] || Without(s, '\n')
    ensures Leads(text, Spot(i + k, frames, waiting), s[k..], Spot(i + |s|, frames, waiting))
    decreases |s| - k
  {
    var end := Spot(i + |s|, frames, waiting);
    if k == |s| {
      assert i + k == i + |s| && s[k..] == "";
      Stay(text, end);
    } else {
      var e := PlainTurn(text, i, s, k, before, frames, waiting);
      var a, b := Spot(i + k, frames, waiting), Spot(i + e, frames, waiting);
      PlainRun(text, i, s, e, before, frames, waiting);
      TurnThen(text, a, s[k..e], b, Keep, s[e..], end);
      SliceSplit(s, k, e);
    }
  }

  lemma SliceSplit(s: string, k: nat, e: nat)
    requires k <= e <= |s|
    ensures s[k..e] + s[e..] == s[k..]
    ensures Blanked(s[k..e]) + Blanked(s[e..]) == Blanked(s[k..])
  {
  }

  lemma QuotedTurn(text: string, i: nat, s: string, k: nat, p: Place, before: char,
                   frames: seq<Frame>, waiting: seq<Heredoc>)
    requires At(text, i, s) && k < |s| && PlainJoins(p, Last(s), CharAt(text, i + |s|))
    requires Sound(frames) && Fits(Top(frames), p) && !p.InCode? && PlainText(p, s, before)
    ensures text[i + k] == s[k] && Step(text, i + k, frames, waiting) == Go(i + k + 1, frames, waiting, Blank)
  {
    AtChars(text, i, s);
    assert DollarFits(s, k, false);
    if k + 1 < |s| {
      assert text[i + (k + 1)] == s[k + 1];
    } else {
      assert Last(s) == s[k] && i + k + 1 == i + |s|;
    }
    assert !Opens(text, i + k);
  }

  lemma {:induction false} QuotedRun(text: string, i: nat, s: string, k: nat, p: Place, before: char,
                                     frames: seq<Frame>, waiting: seq<Heredoc>)
    requires At(text, i, s) && k <= |s| && s != "" && PlainJoins(p, Last(s), CharAt(text, i + |s|))
    requires Sound(frames) && Fits(Top(frames), p) && !p.InCode? && PlainText(p, s, before)
    ensures Leads(text, Spot(i + k, frames, waiting), Blanked(s[k..]), Spot(i + |s|, frames, waiting))
    decreases |s| - k
  {
    var end := Spot(i + |s|, frames, waiting);
    if k == |s| {
      assert i + k == i + |s| && Blanked(s[k..]) == "";
      Stay(text, end);
    } else {
      var a, b := Spot(i + k, frames, waiting), Spot(i + k + 1, frames, waiting);
      QuotedTurn(text, i, s, k, p, before, frames, waiting);
      AtPart(text, i, s, k, k + 1);
      QuotedRun(text, i, s, k + 1, p, before, frames, waiting);
      TurnThen(text, a, s[k..k + 1], b, Blank, Blanked(s[k + 1..]), end);
      SliceSplit(s, k, k + 1);
    }
  }

  // ---- what is skipped whole --------------------------------------------------------------------

  /** One turn that overwrites p and stays in its frames. */
  lemma Blanks1(text: string, i: nat, p: string, frames: seq<Frame>, waiting: seq<Heredoc>)
    requires p != "" && At(text, i, p) && Sound(frames)
    requires Step(text, i, frames, waiting) == Go(i + |p|, frames, waiting, Blank)
    ensures Leads(text, Spot(i, frames, waiting), Blanked(p), Spot(i + |p|, frames, waiting))
  {
    Turned(text, Spot(i, frames, waiting), p, Spot(i + |p|, frames, waiting), Blank);
  }

  /** In every frame a dollar sign that opens something does the same. */
  lemma DollarOpens(text: string, i: nat, p: Place, frames: seq<Frame>, waiting: seq<Heredoc>)
    requires Opens(text, i) && Sound(frames) && Fits(Top(frames), p)
    ensures Step(text, i, frames, waiting) == Dollar(text, i, frames, waiting, Inside(p).inQuote)
  {
  }

  lemma SingleTurn(text: string, i: nat, s: string, p: Place, frames: seq<Frame>, waiting: seq<Heredoc>)
    requires At(text, i, "'" + s + "'") && Without(s, '\'')
    requires Sound(frames) && Fits(Top(frames), p) && (p.InCode? || p == InParam(false))
    ensures Step(text, i, frames, waiting) == Go(i + |s| + 2, frames, waiting, Blank)
  {
    Around(text, i, "'", s, "'");
    AtOne(text, i, '\'');
    AtOne(text, i + 1 + |s|, '\'');
    FindPast(text, i + 1, s, '\'');
  }

  lemma SingleRun(text: string, i: nat, s: string, p: Place, frames: seq<Frame>, waiting: seq<Heredoc>)
    requires At(text, i, "'" + s + "'") && Without(s, '\'')
    requires Sound(frames) && Fits(Top(frames), p) && (p.InCode? || p == InParam(false))
    ensures Leads(text, Spot(i, frames, waiting), Blanked("'" + s + "'"), Spot(i + |"'" + s + "'"|, frames, waiting))
  {
    SingleTurn(text, i, s, p, frames, waiting);
    Blanks1(text, i, "'" + s + "'", frames, waiting);
  }

  lemma EscapeRun(text: string, i: nat, c: char, p: Place, frames: seq<Frame>, waiting: seq<Heredoc>)
    requires At(text, i, ['\\', c]) && Sound(frames) && Fits(Top(frames), p)
    ensures Leads(text, Spot(i, frames, waiting), Shown(p, Escape(c)), Spot(i + |['\\', c]|, frames, waiting))
  {
    AtChars(text, i, ['\\', c]);
    Turned(text, Spot(i, frames, waiting), ['\\', c], Spot(i + |['\\', c]|, frames, waiting),
           if p.InCode? && c == '\n' then Join else Blank);
  }

  lemma {:induction false} AnsiTextEnd(text: string, j: nat, s: string)
    requires At(text, j, s + "'") && AnsiText(s)
    ensures AnsiEnd(text, j) == j + |s|
    decreases |s|
  {
    AtChars(text, j, s + "'");
    if s != "" {
      var d := if s[0] == '\\' then 2 else 1;
      assert (s + "'")[d..] == s[d..] + "'";
      assert s + "'" == s[..d] + (s[d..] + "'");
      AtSplit(text, j, s[..d], s[d..] + "'");
      AnsiTextEnd(text, j + d, s[d..]);
      assert (s + "'")[0] == s[0];
    }
  }

  lemma AnsiRun(text: string, i: nat, s: string, frames: seq<Frame>, waiting: seq<Heredoc>)
    requires At(text, i, "$'" + s + "'") && AnsiText(s) && Sound(frames) && Top(frames).Code?
    ensures Leads(text, Spot(i, frames, waiting), Blanked("$'" + s + "'"), Spot(i + |"$'" + s + "'"|, frames, waiting))
  {
    assert "$'" + s + "'" == "$'" + (s + "'");
    AtSplit(text, i, "$'", s + "'");
    AtTwo(text, i, '$', '\'');
    AnsiTextEnd(text, i + 2, s);
    AnsiTurn(text, i, frames, waiting);
    Blanks1(text, i, "$'" + s + "'", frames, waiting);
  }

  lemma AnsiTurn(text: string, i: nat, frames: seq<Frame>, waiting: seq<Heredoc>)
    requires Sound(frames) && Top(frames).Code? && Two(text, i, '$', '\'')
    ensures Step(text, i, frames, waiting) == Go(AnsiEnd(text, i + 2) + 1, frames, waiting, Blank)
  {
  }

  lemma {:induction false} BalancedEnd(text: string, j: nat, s: string, depth: nat)
    requires At(text, j, s) && Balanced(s, depth)
    ensures ArithmeticEnd(text, j, depth + 2) == ArithmeticEnd(text, j + |s|, 2)
    decreases |s|
  {
    if s != "" {
      assert s == [s[0]] + s[1..];
      AtSplit(text, j, [s[0]], s[1..]);
      AtChars(text, j, s);
      BalancedEnd(text, j + 1, s[1..], if s[0] == '(' then depth + 1 else if s[0] == ')' then depth - 1 else depth);
    }
  }

  lemma ArithEnd(text: string, i: nat, s: string)
    requires At(text, i, "$((" + s + "))") && Balanced(s, 0)
    ensures ArithmeticEnd(text, i + 1, 0) == i + |s| + 5
    ensures Three(text, i, '$', '(', '(') && Two(text, i, '$', '(')
  {
    ArithCut(text, i, s);
    ArithOpens(text, i);
    BalancedEnd(text, i + 3, s, 0);
    ArithCloses(text, i + 3 + |s|);
  }

  lemma ArithCut(text: string, i: nat, s: string)
    requires At(text, i, "$((" + s + "))")
    ensures Three(text, i, '$', '(', '(') && At(text, i + 3, s) && Two(text, i + 3 + |s|, ')', ')')
  {
    Around(text, i, "$((", s, "))");
    AtThree(text, i, '$', '(', '(');
    AtTwo(text, i + 3 + |s|, ')', ')');
  }

  lemma ArithOpens(text: string, i: nat)
    requires Three(text, i, '$', '(', '(')
    ensures ArithmeticEnd(text, i + 1, 0) == ArithmeticEnd(text, i + 3, 2)
  {
    assert ArithmeticEnd(text, i + 1, 0) == ArithmeticEnd(text, i + 2, 1);
    assert ArithmeticEnd(text, i + 2, 1) == ArithmeticEnd(text, i + 3, 2);
  }

  lemma ArithCloses(text: string, j: nat)
    requires Two(text, j, ')', ')')
    ensures ArithmeticEnd(text, j, 2) == j + 2
  {
    assert ArithmeticEnd(text, j, 2) == ArithmeticEnd(text, j + 1, 1);
  }

  lemma ArithTurn(text: string, i: nat, s: string, p: Place, frames: seq<Frame>, waiting: seq<Heredoc>)
    requires At(text, i, "$((" + s + "))") && Balanced(s, 0) && Sound(frames) && Fits(Top(frames), p)
    ensures Step(text, i, frames, waiting) == Go(i + |s| + 5, frames, waiting, Blank)
  {
    ArithEnd(text, i, s);
    DollarOpens(text, i, p, frames, waiting);
  }

  lemma ArithRun(text: string, i: nat, s: string, p: Place, frames: seq<Frame>, waiting: seq<Heredoc>)
    requires At(text, i, "$((" + s + "))") && Balanced(s, 0) && Sound(frames) && Fits(Top(frames), p)
    ensures Leads(text, Spot(i, frames, waiting), Blanked("$((" + s + "))"), Spot(i + |"$((" + s + "))"|, frames, waiting))
  {
    ArithTurn(text, i, s, p, frames, waiting);
    Blanks1(text, i, "$((" + s + "))", frames, waiting);
  }

  // ---- comments and here-documents --------------------------------------------------------------

  /** A comment goes to its newline, or to the end, whatever stands before it and whatever waits. */
  lemma CommentRun(text: string, i: nat, c: string, frames: seq<Frame>, waiting: seq<Heredoc>)
    requires c != "" && At(text, i, c) && CommentAt(text, i) && Without(c, '\n') && Sound(frames) && Top(frames).Code?
    requires i + |c| < |text| ==> text[i + |c|] == '\n'
    ensures Leads(text, Spot(i, frames, waiting), Blanked(c), Spot(i + |c|, frames, waiting))
  {
    LineEnds(text, i, c);
    CommentTurn(text, i, frames, waiting);
    Blanks1(text, i, c, frames, waiting);
  }

  lemma LineEnds(text: string, i: nat, c: string)
    requires At(text, i, c) && Without(c, '\n') && (i + |c| < |text| ==> text[i + |c|] == '\n')
    ensures Find(text, '\n', i) == i + |c|
  {
    NotWithin(text, i, c, '\n');
  }

  lemma CommentTurn(text: string, i: nat, frames: seq<Frame>, waiting: seq<Heredoc>)
    requires i < |text| && CommentAt(text, i) && Sound(frames) && Top(frames).Code?
    ensures Step(text, i, frames, waiting) == Go(Find(text, '\n', i), frames, waiting, Blank)
  {
  }

  /** The loop over a body passes it to its end, or past the end of the text. */
  lemma {:induction false} BodyRun(text: string, j: nat, doc: Heredoc, lines: seq<string>, last: string, open: bool)
    requires At(text, j, Body(lines, last, open)) && DocBody(doc, lines, last)
    requires open ==> j + |Body(lines, last, open)| == |text|
    ensures var e := j + |Body(lines, last, open)|;
      if open then BodyEnd(text, j, doc) >= |text| else BodyEnd(text, j, doc) == e
    decreases |lines|
  {
    if lines != [] {
      var rest := Body(lines[1..], last, open);
      OneLine(text, j, doc, lines[0], rest);
      BodyRun(text, j + |lines[0]| + 1, doc, lines[1..], last, open);
    } else if open {
      OpenLineEnds(text, j, doc, last);
    } else {
      assert last + "\n" + "" == last + "\n";
      OneLine(text, j, doc, last, "");
    }
  }

  /** A line that no newline ends. */
  lemma OpenLineEnds(text: string, j: nat, doc: Heredoc, part: string)
    requires At(text, j, part) && j + |part| == |text| && Without(part, '\n')
    ensures BodyEnd(text, j, doc) >= |text|
  {
    if part != "" {
      LineEnds(text, j, part);
      BodyUnfolds(text, j, doc);
    }
  }

  /** The loop over a body passes one line of it. */
  lemma OneLine(text: string, j: nat, doc: Heredoc, line: string, rest: string)
    requires At(text, j, line + "\n" + rest) && Without(line, '\n')
    ensures At(text, j + |line| + 1, rest)
    ensures var e := j + |line| + 1;
      BodyEnd(text, j, doc) == if Closes(doc, line) then e else BodyEnd(text, e, doc)
  {
    LineCut(text, j, line, rest);
    FindPast(text, j, line, '\n');
    BodyStep(text, j, line, doc);
  }

  lemma BodyStep(text: string, j: nat, line: string, doc: Heredoc)
    requires At(text, j, line) && Find(text, '\n', j) == j + |line| < |text|
    ensures var e := j + |line| + 1;
      BodyEnd(text, j, doc) == if Closes(doc, line) then e else BodyEnd(text, e, doc)
  {
    BodyUnfolds(text, j, doc);
    assert text[j..j + |line|] == line;
  }

  /** The operator of a here-document is read back as it was written. */
  lemma OperatorRead(text: string, i: nat, op: Op)
    requires At(text, i, Operator(op)) && Delimits(op)
    requires op.style.Named? ==> !GoesOn(CharAt(text, i + |Operator(op)|))
    ensures Two(text, i, '<', '<') && !Three(text, i, '<', '<', '<')
    ensures HeredocAt(text, i) == Doc(i + |Operator(op)|, op.doc)
  {
    var g := OperatorCut(text, i, op);
    PartsRead(text, i, g, op);
  }

  lemma PartsRead(text: string, i: nat, g: nat, op: Op)
    requires Two(text, i, '<', '<') && i + 2 < |text| && (text[i + 2] == '-' <==> op.doc.strip) && Delimits(op)
    requires g == (if op.doc.strip then i + 3 else i + 2) && At(text, g, op.gap) && At(text, g + |op.gap|, Delim(op))
    requires op.style.Named? ==> !GoesOn(CharAt(text, g + |op.gap| + |Delim(op)|))
    ensures HeredocAt(text, i) == Doc(g + |op.gap| + |Delim(op)|, op.doc)
  {
    var d := g + |op.gap|;
    DelimiterRead(text, d, op);
    GapSkipped(text, g, op.gap);
    HeredocIs(text, i, op.doc.strip, d);
  }

  lemma HeredocIs(text: string, i: nat, strip: bool, d: nat)
    requires Two(text, i, '<', '<') && i + 2 < |text| && (text[i + 2] == '-' <==> strip)
    requires SkipBlanks(text, if strip then i + 3 else i + 2) == d
    ensures HeredocAt(text, i) == Delimiter(text, d, strip)
  {
  }

  lemma OperatorParts(text: string, i: nat, op: Op) returns (g: nat)
    requires At(text, i, Operator(op))
    ensures g == (if op.doc.strip then i + 3 else i + 2) && Two(text, i, '<', '<')
    ensures At(text, g, op.gap + Delim(op)) && g + |op.gap| + |Delim(op)| == i + |Operator(op)|
    ensures op.doc.strip ==> text[i + 2] == '-'
  {
    var dash, rest := if op.doc.strip then "-" else "", op.gap + Delim(op);
    Around(text, i, "<<", dash, rest);
    AtTwo(text, i, '<', '<');
    AtOne(text, i + 2, '-');
    g := i + 2 + |dash|;
  }

  lemma OperatorCut(text: string, i: nat, op: Op) returns (g: nat)
    requires At(text, i, Operator(op)) && Delimits(op)
    ensures g == (if op.doc.strip then i + 3 else i + 2) && Two(text, i, '<', '<') && i + 2 < |text|
    ensures (text[i + 2] == '-' <==> op.doc.strip) && text[i + 2] != '<'
    ensures At(text, g, op.gap) && At(text, g + |op.gap|, Delim(op)) && g + |op.gap| + |Delim(op)| == i + |Operator(op)|
  {
    g := OperatorParts(text, i, op);
    AtSplit(text, g, op.gap, Delim(op));
    AtChars(text, g, op.gap + Delim(op));
    FirstOf(op);
    assert text[g + 0] == (op.gap + Delim(op))[0];
  }

  /** What an operator's delimiter, or the gap before it, begins with. */
  lemma FirstOf(op: Op)
    requires Delimits(op)
    ensures Delim(op) != "" && Delim(op)[0] != ' ' && Delim(op)[0] != '\t'
    ensures var c := (op.gap + Delim(op))[0]; c != '-' && c != '<'
  {
  }

  lemma GapSkipped(text: string, d: nat, gap: string)
    requires At(text, d, gap) && Blanks(gap)
    requires d + |gap| < |text| && text[d + |gap|] != ' ' && text[d + |gap|] != '\t'
    ensures SkipBlanks(text, d) == d + |gap|
  {
    AtChars(text, d, gap);
    forall k | d <= k < d + |gap| ensures text[k] == ' ' || text[k] == '\t' {
      assert text[d + (k - d)] == gap[k - d];
    }
  }

  lemma DelimiterRead(text: string, d: nat, op: Op)
    requires At(text, d, Delim(op)) && Delimits(op)
    requires op.style.Named? ==> !GoesOn(CharAt(text, d + |Delim(op)|))
    ensures Delimiter(text, d, op.doc.strip) == Doc(d + |Delim(op)|, op.doc)
    ensures d < |text| && text[d] != ' ' && text[d] != '\t'
  {
    match op.style
    case Marked(mark) => MarkedRead(text, d, op.doc, mark);
    case Named(escaped) => NamedRead(text, d, op.doc, escaped);
  }

  lemma MarkedRead(text: string, d: nat, doc: Heredoc, mark: char)
    requires At(text, d, [mark] + doc.delim + [mark]) && (mark == '\'' || mark == '"')
    requires doc.delim != "" && Without(doc.delim, mark) && Without(doc.delim, '\n')
    ensures Delimiter(text, d, doc.strip) == Doc(d + |doc.delim| + 2, doc) && d < |text| && text[d] == mark
  {
    Around(text, d, [mark], doc.delim, [mark]);
    AtOne(text, d, mark);
    AtOne(text, d + 1 + |doc.delim|, mark);
    FindPast(text, d + 1, doc.delim, mark);
    NotWithin(text, d + 1, doc.delim, '\n');
    assert Find(text, '\n', d + 1) > d + 1 + |doc.delim|;
  }

  lemma NamedRead(text: string, d: nat, doc: Heredoc, escaped: bool)
    requires var e := if escaped then "\\" else "";
      At(text, d, e + doc.delim) && !GoesOn(CharAt(text, d + |e| + |doc.delim|))
    requires doc.delim != "" && (IsAlpha(doc.delim[0]) || doc.delim[0] == '_')
    requires forall k :: 0 <= k < |doc.delim| ==> IsWordChar(doc.delim[k])
    ensures Delimiter(text, d, doc.strip) == Doc(d + (if escaped then 1 else 0) + |doc.delim|, doc)
    ensures d < |text| && text[d] == if escaped then '\\' else doc.delim[0]
  {
    var e := if escaped then "\\" else "";
    AtSplit(text, d, e, doc.delim);
    AtOne(text, d, '\\');
    var s := d + |e|;
    AtChars(text, s, doc.delim);
    assert text[s] == doc.delim[0];
    WordIs(text, s, doc.delim);
    NameAt(text, d, s, s + |doc.delim|, doc.strip);
  }

  lemma NameAt(text: string, d: nat, s: nat, e: nat, strip: bool)
    requires d <= s < |text| && s == (if text[d] == '\\' then d + 1 else d) && text[d] != '\'' && text[d] != '"'
    requires (IsAlpha(text[s]) || text[s] == '_') && WordEnd(text, s) == e
    ensures Delimiter(text, d, strip) == Doc(e, Heredoc(text[s..e], strip))
  {
  }

  lemma WordIs(text: string, s: nat, word: string)
    requires At(text, s, word) && !GoesOn(CharAt(text, s + |word|)) && forall k :: 0 <= k < |word| ==> IsWordChar(word[k])
    ensures WordEnd(text, s) == s + |word| && text[s..s + |word|] == word
  {
    AtChars(text, s, word);
    forall k | s <= k < s + |word| ensures IsWordChar(text[k]) {
      assert text[s + (k - s)] == word[k - s];
    }
  }

  /** The operator stands at i, names this here-document and ends at e. */
  predicate Names(text: string, i: nat, op: Op, e: nat, doc: Heredoc) {
    && Delimits(op) && op.doc == doc && At(text, i, Operator(op)) && e == i + |Operator(op)|
    && (op.style.Named? ==> !GoesOn(CharAt(text, e)))
  }

  lemma MarkedFrom(text: string, d: nat, e: nat, doc: Heredoc)
    requires d < |text| && (text[d] == '\'' || text[d] == '"') && Delimiter(text, d, doc.strip) == Doc(e, doc)
    ensures Delimits(Op(doc, "", Marked(text[d]))) && d < e <= |text| && text[d..e] == [text[d]] + doc.delim + [text[d]]
  {
  }

  lemma NamedFrom(text: string, d: nat, e: nat, doc: Heredoc)
    requires d < |text| && text[d] != '\'' && text[d] != '"' && Delimiter(text, d, doc.strip) == Doc(e, doc)
    ensures Delimits(Op(doc, "", Named(text[d] == '\\'))) && d < e <= |text| && !GoesOn(CharAt(text, e))
    ensures text[d..e] == (if text[d] == '\\' then "\\" else "") + doc.delim
  {
    var s := if text[d] == '\\' then d + 1 else d;
    assert doc.delim == text[s..e];
  }

  lemma DelimiterFrom(text: string, d: nat, e: nat, doc: Heredoc) returns (style: Style)
    requires d <= |text| && Delimiter(text, d, doc.strip) == Doc(e, doc)
    ensures var op := Op(doc, "", style);
      Delimits(op) && d < e <= |text| && text[d..e] == Delim(op) && (style.Named? ==> !GoesOn(CharAt(text, e)))
  {
    if text[d] == '\'' || text[d] == '"' {
      style := Marked(text[d]);
      MarkedFrom(text, d, e, doc);
    } else {
      style := Named(text[d] == '\\');
      NamedFrom(text, d, e, doc);
    }
  }

  /** Where the gap before a delimiter begins, and the delimiter itself. */
  lemma DelimiterAfter(text: string, i: nat, e: nat, doc: Heredoc) returns (b: nat, d: nat)
    requires Two(text, i, '<', '<') && HeredocAt(text, i) == Doc(e, doc)
    ensures i <= b <= d <= |text| && Delimiter(text, d, doc.strip) == Doc(e, doc) && Blanks(text[b..d])
    ensures text[i..b] == "<<" + if doc.strip then "-" else ""
  {
    b := if i + 2 < |text| && text[i + 2] == '-' then i + 3 else i + 2;
    d := SkipBlanks(text, b);
  }

  lemma OperatorFrom(text: string, i: nat, e: nat, doc: Heredoc) returns (op: Op)
    requires Two(text, i, '<', '<') && HeredocAt(text, i) == Doc(e, doc)
    ensures Names(text, i, op, e, doc)
  {
    var b, d := DelimiterAfter(text, i, e, doc);
    var style := DelimiterFrom(text, d, e, doc);
    op := Op(doc, text[b..d], style);
    StyledAlike(doc, text[b..d], style);
    OperatorJoined(text, i, b, d, e, op);
  }

  lemma StyledAlike(doc: Heredoc, gap: string, style: Style)
    requires Delimits(Op(doc, "", style)) && Blanks(gap)
    ensures Delim(Op(doc, gap, style)) == Delim(Op(doc, "", style)) && Delimits(Op(doc, gap, style))
  {
  }

  lemma OperatorJoined(text: string, i: nat, b: nat, d: nat, e: nat, op: Op)
    requires i <= b <= d <= e <= |text|
    requires text[i..b] == "<<" + (if op.doc.strip then "-" else "") && text[b..d] == op.gap && text[d..e] == Delim(op)
    ensures At(text, i, Operator(op)) && e == i + |Operator(op)|
  {
    assert text[i..e] == text[i..b] + (text[b..d] + text[d..e]);
  }

  lemma NamedIsFound(text: string, i: nat, op: Op, e: nat, doc: Heredoc)
    requires Names(text, i, op, e, doc)
    ensures Two(text, i, '<', '<') && HeredocAt(text, i) == Doc(e, doc)
  {
    OperatorRead(text, i, op);
  }

  ghost predicate OperatorNames(text: string, i: nat, e: nat, doc: Heredoc) {
    exists op :: Names(text, i, op, e, doc)
  }

  /** The masker finds a here-document exactly where the operator of one stands, and the one it names. */
  lemma HeredocIffNamed(text: string, i: nat, e: nat, doc: Heredoc)
    requires Two(text, i, '<', '<')
    ensures HeredocAt(text, i) == Doc(e, doc) <==> OperatorNames(text, i, e, doc)
  {
    if HeredocAt(text, i) == Doc(e, doc) {
      var op := OperatorFrom(text, i, e, doc);
    }
    if OperatorNames(text, i, e, doc) {
      var op :| Names(text, i, op, e, doc);
      NamedIsFound(text, i, op, e, doc);
    }
  }

  lemma OperatorRun(text: string, i: nat, op: Op, frames: seq<Frame>, waiting: seq<Heredoc>)
    requires At(text, i, Operator(op)) && Delimits(op)
    requires op.style.Named? ==> !GoesOn(CharAt(text, i + |Operator(op)|))
    requires Sound(frames) && Top(frames).Code?
    ensures Leads(text, Spot(i, frames, waiting), Blanked(Operator(op)),
                  Spot(i + |Operator(op)|, frames, waiting + [op.doc]))
  {
    var w := Operator(op);
    OperatorTurn(text, i, op, frames, waiting);
    HeredocRun(text, i, w, op.doc, frames, waiting);
  }

  lemma OperatorTurn(text: string, i: nat, op: Op, frames: seq<Frame>, waiting: seq<Heredoc>)
    requires At(text, i, Operator(op)) && Delimits(op)
    requires op.style.Named? ==> !GoesOn(CharAt(text, i + |Operator(op)|))
    requires Sound(frames) && Top(frames).Code?
    ensures Operator(op) != "" && Step(text, i, frames, waiting) == Go(i + |Operator(op)|, frames, waiting + [op.doc], Blank)
  {
    OperatorRead(text, i, op);
    HeredocTurn(text, i, i + |Operator(op)|, op.doc, frames, waiting);
  }

  lemma HeredocTurn(text: string, i: nat, e: nat, doc: Heredoc, frames: seq<Frame>, waiting: seq<Heredoc>)
    requires Two(text, i, '<', '<') && !Three(text, i, '<', '<', '<') && HeredocAt(text, i) == Doc(e, doc)
    requires Sound(frames) && Top(frames).Code?
    ensures Step(text, i, frames, waiting) == Go(e, frames, waiting + [doc], Blank)
  {
  }

  lemma HeredocRun(text: string, i: nat, o: string, doc: Heredoc, frames: seq<Frame>, waiting: seq<Heredoc>)
    requires o != "" && At(text, i, o) && Sound(frames)
    requires Step(text, i, frames, waiting) == Go(i + |o|, frames, waiting + [doc], Blank)
    ensures Leads(text, Spot(i, frames, waiting), Blanked(o), Spot(i + |o|, frames, waiting + [doc]))
  {
    Turned(text, Spot(i, frames, waiting), o, Spot(i + |o|, frames, waiting + [doc]), Blank);
  }

  /** The loop over the here-documents that wait ends with the last of their bodies. */
  lemma {:induction false} BodiesAre(text: string, j: nat, waiting: seq<Heredoc>, bs: seq<Filled>, open: bool)
    requires At(text, j, Bodies(bs, open)) && Fill(waiting, bs) && (open ==> bs != [] && j + |Bodies(bs, open)| == |text|)
    ensures var e := j + |Bodies(bs, open)|;
      if open then BodiesEnd(text, j, waiting) >= |text| else BodiesEnd(text, j, waiting) == e
    decreases |waiting|
  {
    if waiting != [] {
      var last := open && |bs| == 1;
      var body, more := Body(bs[0].lines, bs[0].last, last), Bodies(bs[1..], open);
      AtSplit(text, j, body, more);
      BodyRun(text, j, waiting[0], bs[0].lines, bs[0].last, last);
      if last {
        PastEnds(text, BodyEnd(text, j, waiting[0]), waiting[1..]);
      } else {
        BodiesAre(text, j + |body|, waiting[1..], bs[1..], open);
      }
    }
  }

  lemma {:induction false} PastEnds(text: string, j: nat, waiting: seq<Heredoc>)
    requires j >= |text|
    ensures BodiesEnd(text, j, waiting) == j
    decreases |waiting|
  {
    if waiting != [] {
      assert BodyEnd(text, j, waiting[0]) == j;
      PastEnds(text, j, waiting[1..]);
    }
  }

  lemma BodiesTurn(text: string, i: nat, e: nat, frames: seq<Frame>, waiting: seq<Heredoc>)
    requires i < |text| && text[i] == '\n' && waiting != [] && BodiesEnd(text, i + 1, waiting) == e
    requires Sound(frames) && Top(frames).Code?
    ensures Step(text, i, frames, waiting) == Go(e, frames, [], Blank)
  {
  }

  lemma BodiesStep(text: string, i: nat, bs: seq<Filled>, open: bool, frames: seq<Frame>, waiting: seq<Heredoc>)
    returns (e: nat)
    requires At(text, i, "\n" + Bodies(bs, open)) && waiting != [] && Fill(waiting, bs)
    requires Sound(frames) && Top(frames).Code? && (open ==> i + |"\n" + Bodies(bs, open)| == |text|)
    ensures Step(text, i, frames, waiting) == Go(e, frames, [], Blank)
    ensures if open then e >= |text| else e == i + |"\n" + Bodies(bs, open)|
  {
    AtSplit(text, i, "\n", Bodies(bs, open));
    AtOne(text, i, '\n');
    BodiesAre(text, i + 1, waiting, bs, open);
    e := BodiesEnd(text, i + 1, waiting);
    BodiesTurn(text, i, e, frames, waiting);
  }

  lemma BodiesRun(text: string, i: nat, bs: seq<Filled>, open: bool, frames: seq<Frame>, waiting: seq<Heredoc>)
    requires At(text, i, "\n" + Bodies(bs, open)) && waiting != [] && Fill(waiting, bs)
    requires Sound(frames) && Top(frames).Code? && (open ==> i + |"\n" + Bodies(bs, open)| == |text|)
    ensures Leads(text, Spot(i, frames, waiting), Blanked("\n" + Bodies(bs, open)),
                  Spot(i + |"\n" + Bodies(bs, open)|, frames, []))
  {
    var e := BodiesStep(text, i, bs, open, frames, waiting);
    BlanksTo(text, i, e, "\n" + Bodies(bs, open), frames, waiting, []);
  }

  /** One turn that overwrites p, which ends where the turn does or where the text does. */
  lemma BlanksTo(text: string, i: nat, e: nat, p: string, frames: seq<Frame>, waiting: seq<Heredoc>, after: seq<Heredoc>)
    requires p != "" && At(text, i, p) && Sound(frames) && Step(text, i, frames, waiting) == Go(e, frames, after, Blank)
    requires e == i + |p| || e >= i + |p| == |text|
    ensures Leads(text, Spot(i, frames, waiting), Blanked(p), Spot(i + |p|, frames, after))
  {
    if e == i + |p| {
      Turned(text, Spot(i, frames, waiting), p, Spot(i + |p|, frames, after), Blank);
    } else {
      TurnedPast(text, Spot(i, frames, waiting), e, p, Spot(i + |p|, frames, after), Blank);
    }
  }

  // ---- what opens and closes --------------------------------------------------------------------

  lemma OpenDouble(text: string, i: nat, p: Place, frames: seq<Frame>, waiting: seq<Heredoc>)
    requires i < |text| && text[i] == '"' && Sound(frames) && Fits(Top(frames), p) && !p.InQuote?
    ensures Leads(text, Spot(i, frames, waiting), "_", Spot(i + 1, frames + [Quote], waiting))
  {
    AtOne(text, i, '"');
    Turned(text, Spot(i, frames, waiting), "\"", Spot(i + 1, frames + [Quote], waiting), Blank);
    assert Blanked("\"") == "_";
  }

  lemma OpenSubst(text: string, i: nat, p: Place, frames: seq<Frame>, waiting: seq<Heredoc>)
    requires Two(text, i, '$', '(') && !Three(text, i, '$', '(', '(') && Sound(frames) && Fits(Top(frames), p)
    ensures Leads(text, Spot(i, frames, waiting), "$(", Spot(i + 2, frames + [SUBSTITUTION], waiting))
  {
    DollarOpens(text, i, p, frames, waiting);
    AtTwo(text, i, '$', '(');
    Turned(text, Spot(i, frames, waiting), "$(", Spot(i + 2, frames + [SUBSTITUTION], waiting), Keep);
  }

  lemma OpenBraces(text: string, i: nat, p: Place, frames: seq<Frame>, waiting: seq<Heredoc>)
    requires Two(text, i, '$', '{') && Sound(frames) && Fits(Top(frames), p)
    ensures Leads(text, Spot(i, frames, waiting), "__", Spot(i + 2, frames + [Param(Inside(p).inQuote)], waiting))
  {
    DollarOpens(text, i, p, frames, waiting);
    AtTwo(text, i, '$', '{');
    Turned(text, Spot(i, frames, waiting), "${", Spot(i + 2, frames + [Param(Inside(p).inQuote)], waiting), Blank);
    assert Blanked("${") == "__";
  }

  /** The closing character of a quote or of a parameter. */
  lemma CloseQuoted(text: string, i: nat, e: nat, frames: seq<Frame>, waiting: seq<Heredoc>)
    requires i < |text| && e == i + 1 && Sound(frames)
    requires (Top(frames) == Quote && text[i] == '"') || (Top(frames).Param? && text[i] == '}')
    ensures Leads(text, Spot(i, frames, waiting), "_", Spot(e, Pop(frames), waiting)) && Sound(Pop(frames))
  {
    AtOne(text, i, text[i]);
    Turned(text, Spot(i, frames, waiting), [text[i]], Spot(e, Pop(frames), waiting), Blank);
    assert Blanked([text[i]]) == "_";
  }

  /** A parenthesis of live code. */
  lemma ParenRun(text: string, i: nat, opens: bool, frames: seq<Frame>, waiting: seq<Heredoc>)
    requires At(text, i, ParenText(opens)) && Sound(frames) && Top(frames).Code?
    ensures var fs := if opens then Replace(frames, Deeper(Top(frames))) else AfterClose(frames);
      Sound(fs) && Leads(text, Spot(i, frames, waiting), ParenText(opens), Spot(i + |ParenText(opens)|, fs, waiting))
  {
    AtOne(text, i, if opens then '(' else ')');
    var fs := if opens then Replace(frames, Deeper(Top(frames))) else AfterClose(frames);
    Turned(text, Spot(i, frames, waiting), ParenText(opens), Spot(i + |ParenText(opens)|, fs, waiting), Keep);
  }

  lemma HereStringRun(text: string, i: nat, frames: seq<Frame>, waiting: seq<Heredoc>)
    requires At(text, i, "<<<") && Sound(frames) && Top(frames).Code?
    ensures Leads(text, Spot(i, frames, waiting), "<<<", Spot(i + |"<<<"|, frames, waiting))
  {
    AtThree(text, i, '<', '<', '<');
    Turned(text, Spot(i, frames, waiting), "<<<", Spot(i + |"<<<"|, frames, waiting), Keep);
  }

  /** The words case and esac, wherever they stand as words, count up and down. */
  lemma KeywordRun(text: string, i: nat, opens: bool, frames: seq<Frame>, waiting: seq<Heredoc>)
    requires At(text, i, Word(opens)) && WordAt(text, i) && !GoesOn(CharAt(text, i + 4)) && Sound(frames) && Top(frames).Code?
    ensures var fs := Replace(frames, AfterWord(Top(frames), Word(opens)));
      Sound(fs) && Leads(text, Spot(i, frames, waiting), Word(opens), Spot(i + |Word(opens)|, fs, waiting))
  {
    WordIs(text, i, Word(opens));
    AtChars(text, i, Word(opens));
    assert text[i + 0] == Word(opens)[0];
    KeywordTurn(text, i, opens, frames, waiting);
    var fs := Replace(frames, AfterWord(Top(frames), Word(opens)));
    Turned(text, Spot(i, frames, waiting), Word(opens), Spot(i + |Word(opens)|, fs, waiting), Keep);
  }

  lemma KeywordTurn(text: string, i: nat, opens: bool, frames: seq<Frame>, waiting: seq<Heredoc>)
    requires i + 4 <= |text| && WordAt(text, i) && WordEnd(text, i) == i + 4 && text[i..i + 4] == Word(opens)
    requires Sound(frames) && Top(frames).Code?
    ensures Step(text, i, frames, waiting)
         == Go(i + 4, Replace(frames, AfterWord(Top(frames), Word(opens))), waiting, Keep)
  {
  }
}
