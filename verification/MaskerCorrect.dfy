/**
 The masker is right about every tree whose substitutions end where the tree ends them: it blanks what
 is quoted and leaves what is live. And it keeps its place in a tree exactly when they do.
 */
module MaskerCorrect {
  import opened Options
  import opened Text
  import opened Masker
  import opened MaskerPath
  import opened ShellTrees
  import opened MaskerRuns

  /** The masker stands where the tree does. */
  predicate Ready(text: string, i: nat, fs: seq<Frame>, p: Place, before: char) {
    Sound(fs) && Fits(Top(fs), p) && Before(text, i, before)
  }

  // ---- what nests -------------------------------------------------------------------------------

  lemma BracketCut(text: string, i: nat, a: string, w: string, c: char)
    requires a != "" && At(text, i, a + w + [c])
    ensures var e := i + |a| + |w|;
      && At(text, i, a) && At(text, i + |a|, w) && e < |text| && text[e] == c
      && Before(text, i + |a|, Last(a))
  {
    Around(text, i, a, w, [c]);
    AtOne(text, i + |a| + |w|, c);
    AtChars(text, i, a);
    assert text[i + (|a| - 1)] == Last(a);
  }

  lemma DoubleOpens(text: string, i: nat, fs: seq<Frame>, ws: seq<Heredoc>, p: Place, w: string)
    requires Sound(fs) && Fits(Top(fs), p) && !p.InQuote? && At(text, i, "\"" + w + "\"")
    ensures var e := i + 1 + |w|;
      && Ready(text, i + 1, fs + [Quote], InQuote, '"') && At(text, i + 1, w) && e < |text| && text[e] == '"'
      && Leads(text, Spot(i, fs, ws), "_", Spot(i + 1, fs + [Quote], ws))
  {
    BracketCut(text, i, "\"", w, '"');
    AtOne(text, i, '"');
    OpenDouble(text, i, p, fs, ws);
  }

  lemma BracesOpens(text: string, i: nat, fs: seq<Frame>, ws: seq<Heredoc>, p: Place, w: string)
    requires Sound(fs) && Fits(Top(fs), p) && At(text, i, "${" + w + "}")
    ensures var gs, e := fs + [Param(Inside(p).inQuote)], i + 2 + |w|;
      && Ready(text, i + 2, gs, Inside(p), '{') && At(text, i + 2, w) && e < |text| && text[e] == '}'
      && Leads(text, Spot(i, fs, ws), "__", Spot(i + 2, gs, ws))
  {
    BracketCut(text, i, "${", w, '}');
    AtTwo(text, i, '$', '{');
    OpenBraces(text, i, p, fs, ws);
  }

  /** Nothing that can stand first in a substitution makes its opening into an arithmetic one. */
  lemma NotArithmetic(text: string, i: nat, w: string)
    requires At(text, i, "$(") && At(text, i + 2, w) && !At(w, 0, "(")
    requires i + 2 + |w| < |text| ==> text[i + 2 + |w|] != '('
    ensures Two(text, i, '$', '(') && !Three(text, i, '$', '(', '(')
  {
    AtTwo(text, i, '$', '(');
    AtChars(text, i + 2, w);
    AtOne(w, 0, '(');
    assert w != "" ==> text[i + 2 + 0] == w[0];
  }

  lemma SubstOpens(text: string, i: nat, fs: seq<Frame>, ws: seq<Heredoc>, p: Place, w: string)
    requires Sound(fs) && Fits(Top(fs), p) && At(text, i, "$(" + w + ")") && !At(w, 0, "(")
    ensures var e := i + 2 + |w|;
      && Ready(text, i + 2, fs + [SUBSTITUTION], InCode, '(') && At(text, i + 2, w) && e < |text| && text[e] == ')'
      && Leads(text, Spot(i, fs, ws), "$(", Spot(i + 2, fs + [SUBSTITUTION], ws))
  {
    BracketCut(text, i, "$(", w, ')');
    NotArithmetic(text, i, w);
    OpenSubst(text, i, p, fs, ws);
  }

  /** The closing parenthesis of a substitution, in whatever frames the masker comes to it. */
  lemma SubstCloses(text: string, i: nat, e: nat, fs: seq<Frame>, ws: seq<Heredoc>)
    requires i < |text| && text[i] == ')' && e == i + 1 && Sound(fs) && Top(fs).Code?
    ensures Sound(AfterClose(fs)) && Leads(text, Spot(i, fs, ws), ")", Spot(e, AfterClose(fs), ws))
  {
    AtOne(text, i, ')');
    Turned(text, Spot(i, fs, ws), ")", Spot(e, AfterClose(fs), ws), Keep);
  }

  // ---- what does not ----------------------------------------------------------------------------

  predicate Nests(n: Node) {
    n.Double? || n.Subst? || n.Braces?
  }

  lemma MasksPlain(text: string, i: nat, fs: seq<Frame>, ws: seq<Heredoc>, p: Place, n: Node, before: char)
    requires n.Plain? && Ready(text, i, fs, p, before) && Valid(p, n, ws, before) && At(text, i, n.s)
    requires Joins(p, n, CharAt(text, i + |n.s|))
    ensures Leads(text, Spot(i, fs, ws), Shown(p, n), Spot(i + |n.s|, fs, ws))
  {
    assert n.s[0..] == n.s;
    if p.InCode? {
      PlainRun(text, i, n.s, 0, before, fs, ws);
    } else {
      QuotedRun(text, i, n.s, 0, p, before, fs, ws);
    }
  }

  lemma MasksComment(text: string, i: nat, fs: seq<Frame>, ws: seq<Heredoc>, s: string, before: char)
    requires Ready(text, i, fs, InCode, before) && BeforeComment(before) && Without(s, '\n') && At(text, i, "#" + s)
    requires Joins(InCode, Comment(s), CharAt(text, i + |"#" + s|))
    ensures Leads(text, Spot(i, fs, ws), Blanked("#" + s), Spot(i + |"#" + s|, fs, ws))
  {
    var c := "#" + s;
    AtSplit(text, i, "#", s);
    AtOne(text, i, '#');
    CommentRun(text, i, c, fs, ws);
  }

  lemma MasksKeyword(text: string, i: nat, fs: seq<Frame>, ws: seq<Heredoc>, opens: bool, before: char)
    requires Ready(text, i, fs, InCode, before) && !MidWord(before) && At(text, i, Word(opens))
    requires !GoesOn(CharAt(text, i + |Word(opens)|))
    ensures var gs := Replace(fs, AfterWord(Top(fs), Word(opens)));
      Leads(text, Spot(i, fs, ws), Word(opens), Spot(i + |Word(opens)|, gs, ws))
  {
    AtChars(text, i, Word(opens));
    assert text[i + 0] == Word(opens)[0];
    KeywordRun(text, i, opens, fs, ws);
  }

  /** The tokens that a frame counts. */
  predicate Counted(n: Node) {
    n.Paren? || n.Keyword?
  }

  lemma MasksCounted(text: string, i: nat, fs: seq<Frame>, ws: seq<Heredoc>, p: Place, n: Node, before: char)
    requires Ready(text, i, fs, p, before) && Valid(p, n, ws, before) && At(text, i, Print(n))
    requires Joins(p, n, CharAt(text, i + |Print(n)|)) && Counted(n) && Follow(p, n, fs).Some?
    ensures Leads(text, Spot(i, fs, ws), Shown(p, n), Spot(i + |Print(n)|, Follow(p, n, fs).value, ws))
  {
    match n
    case Paren(opens) => ParenRun(text, i, opens, fs, ws);
    case Keyword(opens, _) => MasksKeyword(text, i, fs, ws, opens, before);
  }

  lemma MasksOp(text: string, i: nat, fs: seq<Frame>, ws: seq<Heredoc>, p: Place, n: Node, before: char)
    requires n.HereOp? && Sound(fs) && Fits(Top(fs), p) && Valid(p, n, ws, before) && At(text, i, Print(n))
    requires Joins(p, n, CharAt(text, i + |Print(n)|))
    ensures Leads(text, Spot(i, fs, ws), Shown(p, n), Spot(i + |Print(n)|, fs, Waits(n, ws)))
  {
    OperatorRun(text, i, n.op, fs, ws);
  }

  lemma MasksBodies(text: string, i: nat, fs: seq<Frame>, ws: seq<Heredoc>, p: Place, n: Node, before: char)
    requires n.HereBodies? && Sound(fs) && Fits(Top(fs), p) && Valid(p, n, ws, before) && At(text, i, Print(n))
    requires Joins(p, n, CharAt(text, i + |Print(n)|))
    ensures Leads(text, Spot(i, fs, ws), Shown(p, n), Spot(i + |Print(n)|, fs, Waits(n, ws)))
  {
    BodiesRun(text, i, n.bodies, n.open, fs, ws);
  }

  lemma MasksText(text: string, i: nat, fs: seq<Frame>, ws: seq<Heredoc>, p: Place, n: Node, before: char)
    requires Ready(text, i, fs, p, before) && Valid(p, n, ws, before) && At(text, i, Print(n))
    requires n.Single? || n.Escape? || n.Ansi? || n.Arith? || n.HereString?
    ensures Leads(text, Spot(i, fs, ws), Shown(p, n), Spot(i + |Print(n)|, fs, ws))
  {
    match n
    case Single(s) => SingleRun(text, i, s, p, fs, ws);
    case Escape(c) => EscapeRun(text, i, c, p, fs, ws);
    case Ansi(s) => AnsiRun(text, i, s, fs, ws);
    case Arith(s) => ArithRun(text, i, s, p, fs, ws);
    case HereString => HereStringRun(text, i, fs, ws);
  }

  /** One node that nests nothing. */
  lemma MasksLeaf(text: string, i: nat, fs: seq<Frame>, ws: seq<Heredoc>, p: Place, n: Node, before: char)
    requires Ready(text, i, fs, p, before) && Valid(p, n, ws, before) && At(text, i, Print(n))
    requires Joins(p, n, CharAt(text, i + |Print(n)|)) && !Nests(n) && Follow(p, n, fs).Some?
    ensures Leads(text, Spot(i, fs, ws), Shown(p, n),
                  Spot(i + |Print(n)|, Follow(p, n, fs).value, Waits(n, ws)))
  {
    if Counted(n) {
      MasksCounted(text, i, fs, ws, p, n, before);
    } else if n.HereOp? {
      MasksOp(text, i, fs, ws, p, n, before);
    } else if n.HereBodies? {
      MasksBodies(text, i, fs, ws, p, n, before);
    } else if n.Comment? {
      MasksComment(text, i, fs, ws, n.s, before);
    } else if n.Plain? {
      MasksPlain(text, i, fs, ws, p, n, before);
    } else {
      MasksText(text, i, fs, ws, p, n, before);
    }
  }

  // ---- the trees --------------------------------------------------------------------------------

  lemma MasksDouble(text: string, i: nat, e: nat, fs: seq<Frame>, ws: seq<Heredoc>, p: Place, n: Node, before: char)
    requires n.Double? && Ready(text, i, fs, p, before) && Valid(p, n, ws, before) && At(text, i, Print(n))
    requires e == i + |Print(n)| && Follow(p, n, fs).Some?
    ensures Leads(text, Spot(i, fs, ws), Shown(p, n), Spot(e, Follow(p, n, fs).value, Waits(n, ws)))
    decreases n, 0
  {
    var gs, b := fs + [Quote], n.body;
    var j := i + 1 + |PrintAll(b)|;
    DoubleOpens(text, i, fs, ws, p, PrintAll(b));
    MasksAll(text, i + 1, j, gs, ws, InQuote, b, '"', Some('"'));
    var hs := FollowAll(InQuote, b, gs).value;
    CloseQuoted(text, j, e, hs, WaitsAll(b, ws));
    Chain3(text, Spot(i, fs, ws), "_", Spot(i + 1, gs, ws), ShownAll(InQuote, b), Spot(j, hs, WaitsAll(b, ws)),
           "_", Spot(e, Pop(hs), WaitsAll(b, ws)));
  }

  lemma MasksBraces(text: string, i: nat, e: nat, fs: seq<Frame>, ws: seq<Heredoc>, p: Place, n: Node, before: char)
    requires n.Braces? && Ready(text, i, fs, p, before) && Valid(p, n, ws, before) && At(text, i, Print(n))
    requires e == i + |Print(n)| && Follow(p, n, fs).Some?
    ensures Leads(text, Spot(i, fs, ws), Shown(p, n), Spot(e, Follow(p, n, fs).value, Waits(n, ws)))
    decreases n, 0
  {
    var q, b := Inside(p), n.body;
    var gs, j := fs + [Param(q.inQuote)], i + 2 + |PrintAll(b)|;
    BracesOpens(text, i, fs, ws, p, PrintAll(b));
    MasksAll(text, i + 2, j, gs, ws, q, b, '{', Some('}'));
    var hs := FollowAll(q, b, gs).value;
    CloseQuoted(text, j, e, hs, WaitsAll(b, ws));
    Chain3(text, Spot(i, fs, ws), "__", Spot(i + 2, gs, ws), ShownAll(q, b), Spot(j, hs, WaitsAll(b, ws)),
           "_", Spot(e, Pop(hs), WaitsAll(b, ws)));
  }

  lemma MasksSubst(text: string, i: nat, e: nat, fs: seq<Frame>, ws: seq<Heredoc>, p: Place, n: Node, before: char)
    requires n.Subst? && Ready(text, i, fs, p, before) && Valid(p, n, ws, before) && At(text, i, Print(n))
    requires e == i + |Print(n)| && Follow(p, n, fs).Some?
    ensures Leads(text, Spot(i, fs, ws), Shown(p, n), Spot(e, Follow(p, n, fs).value, Waits(n, ws)))
    decreases n, 0
  {
    var gs, b := fs + [SUBSTITUTION], n.body;
    var j := i + 2 + |PrintAll(b)|;
    SubstOpens(text, i, fs, ws, p, PrintAll(b));
    MasksAll(text, i + 2, j, gs, ws, InCode, b, '(', Some(')'));
    var hs := FollowAll(InCode, b, gs).value;
    SubstCloses(text, j, e, hs, WaitsAll(b, ws));
    Chain3(text, Spot(i, fs, ws), "$(", Spot(i + 2, gs, ws), ShownAll(InCode, b), Spot(j, hs, WaitsAll(b, ws)),
           ")", Spot(e, AfterClose(hs), WaitsAll(b, ws)));
  }

  /**
   The masker is right about one fragment, wherever it stands: it blanks the quoted characters of it,
   keeps the live ones, and comes out of it in the frames that the fragment leads to.
   */
  lemma {:induction false} Masks(text: string, i: nat, e: nat, fs: seq<Frame>, ws: seq<Heredoc>,
                                 p: Place, n: Node, before: char)
    requires Ready(text, i, fs, p, before) && Valid(p, n, ws, before) && At(text, i, Print(n))
    requires e == i + |Print(n)| && Joins(p, n, CharAt(text, e)) && Follow(p, n, fs).Some?
    ensures Leads(text, Spot(i, fs, ws), Shown(p, n), Spot(e, Follow(p, n, fs).value, Waits(n, ws)))
    decreases n, 1
  {
    match n
    case Double(_) => MasksDouble(text, i, e, fs, ws, p, n, before);
    case Subst(_) => MasksSubst(text, i, e, fs, ws, p, n, before);
    case Braces(_) => MasksBraces(text, i, e, fs, ws, p, n, before);
    case _ => MasksLeaf(text, i, fs, ws, p, n, before);
  }

  /** The first node of a row: where it ends, what stands before the rest, and what follows. */
  lemma InRow(text: string, i: nat, e: nat, p: Place, ns: Nodes, ws: seq<Heredoc>, before: char, after: Next)
    returns (j: nat)
    requires ns.Cons? && ValidAll(p, ns, ws, before, after) && At(text, i, PrintAll(ns))
    requires e == i + |PrintAll(ns)| && CharAt(text, e) == after
    ensures Print(ns.head) != "" && j == i + |Print(ns.head)| && e == j + |PrintAll(ns.tail)|
    ensures Valid(p, ns.head, ws, before)
    ensures ValidAll(p, ns.tail, Waits(ns.head, ws), Last(Print(ns.head)), after)
    ensures At(text, i, Print(ns.head)) && At(text, j, PrintAll(ns.tail))
    ensures Joins(p, ns.head, CharAt(text, j)) && Before(text, j, Last(Print(ns.head)))
  {
    var a, b := Print(ns.head), PrintAll(ns.tail);
    j := i + |a|;
    RowCut(text, i, a, b);
    assert CharAt(text, j) == NextOf(ns.tail, after);
  }

  lemma RowCut(text: string, i: nat, a: string, b: string)
    requires At(text, i, a + b) && a != ""
    ensures var j := i + |a|;
      At(text, i, a) && At(text, j, b) && Before(text, j, Last(a)) && (b != "" ==> CharAt(text, j) == Some(b[0]))
  {
    AtSplit(text, i, a, b);
    AtChars(text, i, a);
    assert text[i + (|a| - 1)] == Last(a);
    if b != "" {
      AtChars(text, i + |a|, b);
      assert text[i + |a| + 0] == b[0];
    }
  }

  /** The same for fragments in a row. */
  lemma {:induction false} MasksAll(text: string, i: nat, e: nat, fs: seq<Frame>, ws: seq<Heredoc>,
                                    p: Place, ns: Nodes, before: char, after: Next)
    requires Ready(text, i, fs, p, before) && ValidAll(p, ns, ws, before, after) && At(text, i, PrintAll(ns))
    requires e == i + |PrintAll(ns)| && CharAt(text, e) == after && FollowAll(p, ns, fs).Some?
    ensures Leads(text, Spot(i, fs, ws), ShownAll(p, ns), Spot(e, FollowAll(p, ns, fs).value, WaitsAll(ns, ws)))
    decreases ns, 2
  {
    match ns
    case Nil =>
      assert e == i;
      Stay(text, Spot(e, fs, ws));
    case Cons(n, rest) =>
      var j := InRow(text, i, e, p, ns, ws, before, after);
      var gs := Follow(p, n, fs).value;
      Masks(text, i, j, fs, ws, p, n, before);
      MasksAll(text, j, e, gs, Waits(n, ws), p, rest, Last(Print(n)), after);
      Chain(text, Spot(i, fs, ws), Shown(p, n), Spot(j, gs, Waits(n, ws)),
            ShownAll(p, rest), Spot(e, FollowAll(p, ns, fs).value, WaitsAll(ns, ws)));
  }

  /** The frames a whole script leads to, if the masker keeps its place in it. */
  function Followed(ns: Nodes): Option<seq<Frame>> {
    FollowAll(InCode, ns, [BOTTOM])
  }

  lemma RowLeads(ns: Nodes)
    requires Legible(ns) && Followed(ns).Some?
    ensures Leads(PrintAll(ns), START, ShownAll(InCode, ns), Spot(|PrintAll(ns)|, Followed(ns).value, WaitsAll(ns, [])))
  {
    var text := PrintAll(ns);
    assert text[0..|text|] == text;
    MasksAll(text, 0, |text|, [BOTTOM], [], InCode, ns, '\n', None);
  }

  /** Read as it is printed, whether or not a shell reads it so. */
  lemma RowIsRight(ns: Nodes)
    requires Legible(ns) && Followed(ns).Some?
    ensures MaskSpec(PrintAll(ns)) == Masked(ShownAll(InCode, ns), if |Followed(ns).value| == 1 then Fine else EndsInside)
  {
    var text, fs := PrintAll(ns), Followed(ns).value;
    RowLeads(ns);
    var end := Spot(|text|, fs, WaitsAll(ns, []));
    LeadsMasks(text, START, ShownAll(InCode, ns), end);
    Ends(text, |text|, fs, WaitsAll(ns, []));
    assert ShownAll(InCode, ns) + "" == ShownAll(InCode, ns);
  }

  /**
   For every script in which no parenthesis ends a substitution too soon, into a quote or a
   parameter: masking its text overwrites exactly the quoted characters, the parameters, the comments
   and the here-documents, and leaves every substitution body live. It reports a loss exactly when the
   walk over the parentheses ends with a substitution open.
   */
  lemma MaskIsRight(ns: Nodes)
    requires Script(ns) && Followed(ns).Some?
    ensures MaskSpec(PrintAll(ns)) == Masked(ShownAll(InCode, ns), if |Followed(ns).value| == 1 then Fine else EndsInside)
  {
    RowIsRight(ns);
  }
}
