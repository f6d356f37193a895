/**
 Where the masker loses its place and says nothing: a case statement in a parenthesised group of a quoted
 substitution. The masker takes the closing parenthesis of the pattern for the group's, and the group's
 for the end of the substitution, so the rest of the substitution is read as quoted text. The same group
 in a script's own code is masked right, and two such losses can undo each other.

 Each of these texts is printed by two rows: the one a shell reads, and the one the masker does, which it
 is right about.
 */
module MaskerLimits {
  import opened Options
  import opened Text
  import opened Masker
  import opened ShellTrees
  import opened MaskerCorrect
  import opened MaskerWalks

  // ---- rows, built from their end ---------------------------------------------------------------

  /** A row of code, with nothing waiting, that may stand between these characters. */
  predicate Row(ns: Nodes, before: char, after: Next) {
    ValidAll(InCode, ns, [], before, after) && SealedAll(ns) && WaitsAll(ns, []) == []
  }

  /** It closes what is open, and a shell reads it so. */
  predicate Told(ns: Nodes, before: char, after: Next, nest: seq<Nest>) {
    ReadsAll(InCode, ns, before, after, [], nest) && OpsAll(ns, []) == [] && NestAll(ns, nest) == Some([])
  }

  lemma First(n: Node, rest: Nodes, before: char, after: Next)
    requires Valid(InCode, n, [], before) && Sealed(n) && Waits(n, []) == [] && Joins(InCode, n, NextOf(rest, after))
    requires Row(rest, Last(Print(n)), after)
    ensures Row(Cons(n, rest), before, after) && PrintAll(Cons(n, rest)) == Print(n) + PrintAll(rest)
    ensures ShownAll(InCode, Cons(n, rest)) == Shown(InCode, n) + ShownAll(InCode, rest)
  {
  }

  lemma FirstTold(n: Node, rest: Nodes, before: char, after: Next, nest: seq<Nest>, more: seq<Nest>)
    requires Print(n) != "" && Reads(InCode, n, NextOf(rest, after), [], nest) && Ops(n, []) == []
    requires HashFits(n, before, NextOf(rest, after)) && Nested(n, rest, nest) == Some(more)
    requires Told(rest, Last(Print(n)), after, more)
    ensures Told(Cons(n, rest), before, after, nest)
  {
  }

  /** Plain code that holds no half of a pair of backquotes. */
  predicate Calm(s: string) {
    Count(s, '`') % 2 == 0 && NoHashes(s)
  }

  lemma PlainFirst(s: string, rest: Nodes, before: char, after: Next, nest: seq<Nest>)
    requires s != "" && PlainCode(s, before) && Row(rest, Last(s), after)
    requires PlainJoins(InCode, Last(s), NextOf(rest, after))
    ensures var ns := Cons(Plain(s), rest);
      && Row(ns, before, after) && PrintAll(ns) == s + PrintAll(rest)
      && ShownAll(InCode, ns) == s + ShownAll(InCode, rest)
      && (Calm(s) && Told(rest, Last(s), after, nest) && HashFits(Plain(s), before, NextOf(rest, after))
          ==> Told(ns, before, after, nest))
  {
    First(Plain(s), rest, before, after);
    if Calm(s) && Told(rest, Last(s), after, nest) && HashFits(Plain(s), before, NextOf(rest, after)) {
      FirstTold(Plain(s), rest, before, after, nest, nest);
    }
  }

  lemma ParenFirst(opens: bool, rest: Nodes, before: char, after: Next, nest: seq<Nest>, more: seq<Nest>)
    requires Row(rest, if opens then '(' else ')', after)
    ensures var ns := Cons(Paren(opens), rest);
      && Row(ns, before, after) && PrintAll(ns) == ParenText(opens) + PrintAll(rest)
      && ShownAll(InCode, ns) == ParenText(opens) + ShownAll(InCode, rest)
      && (Nested(Paren(opens), rest, nest) == Some(more) && !Is(NextOf(rest, after), '#') ==>
            Told(rest, if opens then '(' else ')', after, more) ==> Told(ns, before, after, nest))
  {
    assert Last(ParenText(opens)) == if opens then '(' else ')';
    First(Paren(opens), rest, before, after);
    if Nested(Paren(opens), rest, nest) == Some(more) && !Is(NextOf(rest, after), '#')
       && Told(rest, if opens then '(' else ')', after, more) {
      FirstTold(Paren(opens), rest, before, after, nest, more);
    }
  }

  lemma KeywordFirst(opens: bool, rest: Nodes, before: char, after: Next, nest: seq<Nest>, more: seq<Nest>)
    requires Row(rest, if opens then 'e' else 'c', after) && !MidWord(before) && !GoesOn(NextOf(rest, after))
    ensures var n, ns := Keyword(opens, true), Cons(Keyword(opens, true), rest);
      && Row(ns, before, after) && PrintAll(ns) == Word(opens) + PrintAll(rest)
      && ShownAll(InCode, ns) == Word(opens) + ShownAll(InCode, rest)
      && (Nested(n, rest, nest) == Some(more) && Told(rest, if opens then 'e' else 'c', after, more)
          ==> Told(ns, before, after, nest))
  {
    var n := Keyword(opens, true);
    assert Last(Word(opens)) == if opens then 'e' else 'c';
    First(n, rest, before, after);
    if Nested(n, rest, nest) == Some(more) && Told(rest, if opens then 'e' else 'c', after, more) {
      FirstTold(n, rest, before, after, nest, more);
    }
  }

  const SPACE := Plain(" ")
  const LINE := Plain("\n")

  lemma SpaceFirst(rest: Nodes, before: char, after: Next, nest: seq<Nest>)
    requires Row(rest, ' ', after)
    ensures var ns := Cons(SPACE, rest);
      && Row(ns, before, after) && PrintAll(ns) == " " + PrintAll(rest)
      && ShownAll(InCode, ns) == " " + ShownAll(InCode, rest)
      && (Told(rest, ' ', after, nest) ==> Told(ns, before, after, nest))
  {
    assert PlainCode(" ", before) && Calm(" ");
    PlainFirst(" ", rest, before, after, nest);
  }

  lemma LineFirst(rest: Nodes, before: char, after: Next, nest: seq<Nest>)
    requires Row(rest, '\n', after)
    ensures var ns := Cons(LINE, rest);
      && Row(ns, before, after) && PrintAll(ns) == "\n" + PrintAll(rest)
      && ShownAll(InCode, ns) == "\n" + ShownAll(InCode, rest)
      && (Told(rest, '\n', after, nest) ==> Told(ns, before, after, nest))
  {
    assert PlainCode("\n", before) && Calm("\n");
    PlainFirst("\n", rest, before, after, nest);
  }

  // ---- a group that holds a case statement -------------------------------------------------------

  /** A group that holds a case statement with one arm, without its last parenthesis, and more after it. */
  function Arm(s: string, t: string, more: Nodes): Nodes {
    Cons(SPACE, Cons(Paren(true), Cons(SPACE, ArmRest(s, t, more))))
  }

  function ArmRest(s: string, t: string, more: Nodes): Nodes {
    Cons(Keyword(true, true), Cons(Plain(s), Cons(Paren(false), ArmEnd(t, more))))
  }

  function ArmEnd(t: string, more: Nodes): Nodes {
    Cons(Plain(t), Cons(Keyword(false, true), Cons(SPACE, more)))
  }

  /** s goes on from the word case, and t comes between the pattern's parenthesis and the word esac. */
  predicate ArmText(s: string, t: string) {
    && s != "" && PlainCode(s, 'e') && Calm(s) && !NameChar(s[0])
    && t != "" && PlainCode(t, ')') && Calm(t) && t[0] != '#' && !MidWord(Last(t))
  }

  function ArmRestPrinted(s: string, t: string, m: string): string {
    "case" + (s + (")" + (t + ("esac" + (" " + m)))))
  }

  function ArmPrinted(s: string, t: string, m: string): string {
    " " + ("(" + (" " + ArmRestPrinted(s, t, m)))
  }

  lemma ArmEndIs(t: string, more: Nodes, after: Next)
    requires t != "" && PlainCode(t, ')') && !MidWord(Last(t)) && Row(more, ' ', after)
    ensures var ns := ArmEnd(t, more);
      && Row(ns, ')', after) && PrintAll(ns) == t + ("esac" + (" " + PrintAll(more)))
      && ShownAll(InCode, ns) == t + ("esac" + (" " + ShownAll(InCode, more)))
      && (Calm(t) && Told(more, ' ', after, [Group]) ==> Told(ns, ')', after, [Group, Case]))
  {
    var b := Cons(Keyword(false, true), Cons(SPACE, more));
    EsacIs(more, Last(t), after, b);
    PlainFirst(t, b, ')', after, [Group, Case]);
  }

  lemma EsacIs(more: Nodes, before: char, after: Next, ns: Nodes)
    requires !MidWord(before) && Row(more, ' ', after) && ns == Cons(Keyword(false, true), Cons(SPACE, more))
    ensures Row(ns, before, after) && PrintAll(ns) == "esac" + (" " + PrintAll(more))
    ensures ShownAll(InCode, ns) == "esac" + (" " + ShownAll(InCode, more)) && NextOf(ns, after) == Some('e')
    ensures Told(more, ' ', after, [Group]) ==> Told(ns, before, after, [Group, Case])
  {
    SpaceFirst(more, 'c', after, [Group]);
    assert [Group, Case][..1] == [Group];
    KeywordFirst(false, Cons(SPACE, more), before, after, [Group, Case], [Group]);
  }

  lemma ArmRestIs(s: string, t: string, more: Nodes, after: Next)
    requires ArmText(s, t) && Row(more, ' ', after)
    ensures var ns := ArmRest(s, t, more);
      && Row(ns, ' ', after) && PrintAll(ns) == ArmRestPrinted(s, t, PrintAll(more))
      && ShownAll(InCode, ns) == ArmRestPrinted(s, t, ShownAll(InCode, more))
      && (Told(more, ' ', after, [Group]) ==> Told(ns, ' ', after, [Group]))
  {
    var a := ArmEnd(t, more);
    var b := Cons(Paren(false), a);
    var c := Cons(Plain(s), b);
    ArmEndIs(t, more, after);
    ParenFirst(false, a, Last(s), after, [Group, Case], [Group, Case]);
    PlainFirst(s, b, 'e', after, [Group, Case]);
    assert [Group] + [Case] == [Group, Case];
    KeywordFirst(true, c, ' ', after, [Group], [Group, Case]);
  }

  lemma ArmIs(s: string, t: string, more: Nodes, before: char, after: Next)
    requires ArmText(s, t) && Row(more, ' ', after)
    ensures var ns := Arm(s, t, more);
      && Row(ns, before, after) && PrintAll(ns) == ArmPrinted(s, t, "") + PrintAll(more)
      && ShownAll(InCode, ns) == ArmPrinted(s, t, "") + ShownAll(InCode, more)
      && (Told(more, ' ', after, [Group]) ==> Told(ns, before, after, []))
  {
    var a := ArmRest(s, t, more);
    var b := Cons(SPACE, a);
    var c := Cons(Paren(true), b);
    ArmRestIs(s, t, more, after);
    SpaceFirst(a, '(', after, [Group]);
    assert [] + [Group] == [Group];
    ParenFirst(true, b, ' ', after, [], [Group]);
    SpaceFirst(c, before, after, []);
    PrintedOnto(s, t, PrintAll(more));
    PrintedOnto(s, t, ShownAll(InCode, more));
  }

  lemma PrintedOnto(s: string, t: string, m: string)
    ensures ArmPrinted(s, t, m) == ArmPrinted(s, t, "") + m
  {
    assert ArmRestPrinted(s, t, m) == ArmRestPrinted(s, t, "") + m;
  }

  /** Walking the arm, the pattern's parenthesis closes the group: at its end none is open. */
  lemma ArmWalk(s: string, t: string, more: Nodes)
    ensures OwnAll(Arm(s, t, more), SUBSTITUTION) == OwnAll(more, SUBSTITUTION)
  {
    var h := Code(true, 1, 1);
    OwnEnd(t, more, Code(true, 0, 1));
    var c := Cons(Paren(false), ArmEnd(t, more));
    assert OwnAll(c, h) == OwnAll(ArmEnd(t, more), Code(true, 0, 1));
    var d := Cons(Plain(s), c);
    assert OwnAll(d, h) == OwnAll(c, h);
    assert OwnAll(ArmRest(s, t, more), Code(true, 1, 0)) == OwnAll(d, h);
    var e := Cons(SPACE, ArmRest(s, t, more));
    assert OwnAll(e, Code(true, 1, 0)) == OwnAll(d, h);
    assert OwnAll(Cons(Paren(true), e), SUBSTITUTION) == OwnAll(e, Code(true, 1, 0));
  }

  lemma OwnEnd(t: string, more: Nodes, f: Frame)
    requires f == Code(true, 0, 1)
    ensures OwnAll(ArmEnd(t, more), f) == OwnAll(more, SUBSTITUTION)
  {
    var a := Cons(SPACE, more);
    assert OwnAll(a, SUBSTITUTION) == OwnAll(more, SUBSTITUTION);
    assert OwnAll(Cons(Keyword(false, true), a), f) == OwnAll(a, SUBSTITUTION);
  }

  // ---- in a quoted substitution -----------------------------------------------------------------

  /** Quoted text that begins with the arm's substitution. */
  function Quoting(s: string, t: string, more: Nodes, rest: Nodes): Node {
    Double(Cons(Subst(Arm(s, t, more)), rest))
  }

  lemma SubstIs(s: string, t: string, more: Nodes, next: Next)
    requires ArmText(s, t) && Row(more, ' ', Some(')'))
    ensures var n := Subst(Arm(s, t, more));
      && Valid(InQuote, n, [], '"') && Waits(n, []) == [] && Last(Print(n)) == ')'
      && Print(n) == "$(" + (ArmPrinted(s, t, "") + PrintAll(more)) + ")"
      && Shown(InQuote, n) == "$(" + (ArmPrinted(s, t, "") + ShownAll(InCode, more)) + ")"
      && (Told(more, ' ', Some(')'), [Group]) ==> Reads(InQuote, n, next, [], []))
  {
    ArmIs(s, t, more, '(', Some(')'));
    var w := PrintAll(Arm(s, t, more));
    assert w[0] == ' ';
    assert !At(w, 0, "(");
  }

  lemma QuotingIs(s: string, t: string, more: Nodes, rest: Nodes)
    requires ArmText(s, t) && Row(more, ' ', Some(')'))
    requires ValidAll(InQuote, rest, [], ')', Some('"')) && WaitsAll(rest, []) == []
    ensures var n := Quoting(s, t, more, rest);
      && Valid(InCode, n, [], '\n') && Waits(n, []) == [] && Last(Print(n)) == '"'
      && Print(n) == "\"" + (("$(" + (ArmPrinted(s, t, "") + PrintAll(more)) + ")") + PrintAll(rest)) + "\""
      && Shown(InCode, n) == "_" + (("$(" + (ArmPrinted(s, t, "") + ShownAll(InCode, more)) + ")") + ShownAll(InQuote, rest)) + "_"
      && (rest == Nil && Told(more, ' ', Some(')'), [Group]) ==> forall next :: Reads(InCode, n, next, [], []))
  {
    var n, ns := Subst(Arm(s, t, more)), Cons(Subst(Arm(s, t, more)), rest);
    SubstIs(s, t, more, NextOf(rest, Some('"')));
    assert ValidAll(InQuote, ns, [], '"', Some('"')) && WaitsAll(ns, []) == [];
    assert PrintAll(ns) == Print(n) + PrintAll(rest) && ShownAll(InQuote, ns) == Shown(InQuote, n) + ShownAll(InQuote, rest);
    if rest == Nil && Told(more, ' ', Some(')'), [Group]) {
      assert ReadsAll(InQuote, ns, '"', Some('"'), [], []);
    }
  }

  /** The arm's group closed, and more code: the rest of the substitution's body. */
  function GroupEnd(r: string): Nodes {
    Cons(Paren(false), Cons(Plain(r), Nil))
  }

  /** Code that may follow the group. */
  predicate EndText(r: string) {
    r != "" && PlainCode(r, ')') && Calm(r) && r[0] != '#' && PlainJoins(InCode, Last(r), Some(')')) && Without(r, '`')
  }

  /** "$( ( case s) t esac )r)" */
  function Lost(s: string, t: string, r: string): Nodes {
    Cons(Quoting(s, t, GroupEnd(r), Nil), Nil)
  }

  /** What the masker takes it for: a substitution that ends with the group, and quoted text. */
  function LostRead(s: string, t: string, r: string): Nodes {
    Cons(Quoting(s, t, Nil, Cons(Plain(r + ")"), Nil)), Nil)
  }

  lemma GroupEndIs(r: string, after: Next)
    requires EndText(r) && (after.None? || after == Some(')'))
    ensures var more := GroupEnd(r);
      && Row(more, ' ', after) && PrintAll(more) == ")" + r && ShownAll(InCode, more) == ")" + r
      && Told(more, ' ', after, [Group])
  {
    PlainFirst(r, Nil, ')', after, []);
    assert [Group][..0] == [];
    ParenFirst(false, Cons(Plain(r), Nil), ' ', after, [Group], []);
    assert r + "" == r;
  }

  /** What stands between the group's parenthesis and the substitution's is plain as quoted text too. */
  lemma RestIsQuoted(r: string)
    requires EndText(r)
    ensures var q := Cons(Plain(r + ")"), Nil);
      && ValidAll(InQuote, q, [], ')', Some('"')) && WaitsAll(q, []) == []
      && PrintAll(q) == r + ")" && ShownAll(InQuote, q) == Blanked(r + ")") && SealedAll(q)
  {
    var u := r + ")";
    forall k: nat | k < |u| ensures DollarFits(u, k, false) {
      if k + 1 < |r| {
        assert DollarFits(r, k, true) && u[k] == r[k] && u[k + 1] == r[k + 1];
      }
    }
    assert PlainText(InQuote, u, ')') && Last(u) == ')';
    assert u + "" == u && Blanked(u) + "" == Blanked(u);
  }

  lemma LostIs(s: string, t: string, r: string, a: string)
    requires ArmText(s, t) && EndText(r) && a == ArmPrinted(s, t, "")
    ensures Script(Lost(s, t, r)) && PrintAll(Lost(s, t, r)) == "\"" + (("$(" + (a + (")" + r)) + ")") + "") + "\"" + ""
    ensures ShownAll(InCode, Lost(s, t, r)) == "_" + (("$(" + (a + (")" + r)) + ")") + "") + "_" + ""
  {
    var more := GroupEnd(r);
    GroupEndIs(r, Some(')'));
    QuotingIs(s, t, more, Nil);
    var n := Quoting(s, t, more, Nil);
    assert HashFits(n, '\n', None);
    FirstTold(n, Nil, '\n', None, [], []);
  }

  lemma LostReadIs(s: string, t: string, r: string, a: string)
    requires ArmText(s, t) && EndText(r) && a == ArmPrinted(s, t, "")
    ensures Legible(LostRead(s, t, r)) && SealedAll(LostRead(s, t, r))
    ensures PrintAll(LostRead(s, t, r)) == "\"" + (("$(" + (a + "") + ")") + (r + ")")) + "\"" + ""
    ensures ShownAll(InCode, LostRead(s, t, r)) == "_" + (("$(" + (a + "") + ")") + Blanked(r + ")")) + "_" + ""
  {
    var q := Cons(Plain(r + ")"), Nil);
    RestIsQuoted(r);
    QuotingIs(s, t, Nil, q);
    QuotingSeals(s, t, q);
  }

  lemma LostTexts(a: string, r: string, b: string)
    ensures "\"" + (("$(" + (a + (")" + r)) + ")") + "") + "\"" + "" == "\"" + (("$(" + (a + "") + ")") + (r + ")")) + "\"" + ""
    ensures "_" + (("$(" + (a + (")" + r)) + ")") + "") + "_" + "" == "_$(" + a + ")" + r + ")_"
    ensures "_" + (("$(" + (a + "") + ")") + b) + "_" + "" == "_$(" + a + ")" + b + "_"
  {
  }

  lemma QuotingSeals(s: string, t: string, q: Nodes)
    requires ArmText(s, t) && SealedAll(q)
    ensures Sealed(Quoting(s, t, Nil, q))
  {
    ArmIs(s, t, Nil, '(', Some(')'));
    ArmWalk(s, t, Nil);
  }

  /** Told from its print, and with its substitutions sealed, a row is masked right, whoever reads it so. */
  lemma SealedRowIsRight(ns: Nodes)
    requires Legible(ns) && SealedAll(ns)
    ensures MaskSpec(PrintAll(ns)) == Masked(ShownAll(InCode, ns), Fine)
  {
    SealedIsFollowed(ns);
    RowIsRight(ns);
  }

  /**
   For every such case statement the masker reports no loss, and overwrites live code: the rest of the
   substitution, after the parenthesis that closes the group.
   */
  lemma ArmInGroupIsLost(s: string, t: string, r: string)
    requires ArmText(s, t) && EndText(r)
    ensures var a, text := ArmPrinted(s, t, ""), PrintAll(Lost(s, t, r));
      && Script(Lost(s, t, r))
      && MaskSpec(text) == Masked("_$(" + a + ")" + Blanked(r + ")") + "_", Fine)
      && ShownAll(InCode, Lost(s, t, r)) == "_$(" + a + ")" + r + ")_"
  {
    var a := ArmPrinted(s, t, "");
    LostIs(s, t, r, a);
    LostReadIs(s, t, r, a);
    LostTexts(a, r, Blanked(r + ")"));
    SealedRowIsRight(LostRead(s, t, r));
  }

  /** The same statement in a subshell of the script's own code: ( case s) t esac ) and more. */
  lemma ArmInSubshellIsRight(s: string, t: string, r: string)
    requires ArmText(s, t) && EndText(r)
    ensures var text := PrintAll(Arm(s, t, GroupEnd(r)));
      Script(Arm(s, t, GroupEnd(r))) && MaskSpec(text) == Masked(text, Fine)
  {
    var more := GroupEnd(r);
    GroupEndIs(r, None);
    ArmIs(s, t, more, '\n', None);
    SealedIsRight(Arm(s, t, more));
  }

  // ---- two losses that cancel -------------------------------------------------------------------

  /** A comment that holds one double quote, on a line of its own. */
  function QuoteLine(): Nodes {
    Cons(LINE, Cons(Comment("\""), Cons(LINE, Nil)))
  }

  /** The group and its arm in a quoted substitution, with such a comment in it and one after it. */
  function Twice(s: string, t: string): Nodes {
    Cons(Quoting(s, t, Cons(Paren(false), QuoteLine()), Nil), QuoteLine())
  }

  /** What the masker takes it for. */
  function TwiceRead(s: string, t: string): Nodes {
    Cons(Quoting(s, t, Nil, Cons(Plain("\n#"), Nil)),
         Cons(LINE, Cons(Paren(false), Cons(Double(Cons(Plain("\n#"), Nil)), Cons(LINE, Nil)))))
  }

  lemma QuoteLineIs(before: char, after: Next)
    ensures Row(QuoteLine(), before, after) && PrintAll(QuoteLine()) == "\n#\"\n"
    ensures ShownAll(InCode, QuoteLine()) == "\n__\n" && Told(QuoteLine(), before, after, [])
    ensures OwnAll(QuoteLine(), SUBSTITUTION) == Some(SUBSTITUTION)
  {
    var c, a := Comment("\""), Cons(LINE, Nil);
    LineFirst(Nil, '"', after, []);
    assert PrintAll(a) == "\n" && ShownAll(InCode, a) == "\n";
    CommentIs(a, after);
    LineFirst(Cons(c, a), before, after, []);
  }

  lemma CommentIs(a: Nodes, after: Next)
    requires Row(a, '"', after) && Told(a, '"', after, []) && PrintAll(a) == "\n" && ShownAll(InCode, a) == "\n"
    ensures var ns := Cons(Comment("\""), a);
      Row(ns, '\n', after) && Told(ns, '\n', after, []) && PrintAll(ns) == "#\"\n" && ShownAll(InCode, ns) == "__\n"
  {
    var c := Comment("\"");
    assert Last(Print(c)) == '"' && Blanked("#\"") == "__";
    First(c, a, '\n', after);
    FirstTold(c, a, '\n', after, [], []);
  }

  lemma TwiceIs(s: string, t: string, a: string)
    requires ArmText(s, t) && a == ArmPrinted(s, t, "")
    ensures Script(Twice(s, t))
    ensures PrintAll(Twice(s, t)) == "\"" + (("$(" + (a + (")" + "\n#\"\n")) + ")") + "") + "\"" + "\n#\"\n"
    ensures ShownAll(InCode, Twice(s, t)) == "_" + (("$(" + (a + (")" + "\n__\n")) + ")") + "") + "_" + "\n__\n"
  {
    var more := Cons(Paren(false), QuoteLine());
    var n := Quoting(s, t, more, Nil);
    QuoteLineIs(')', Some(')'));
    assert [Group][..0] == [];
    ParenFirst(false, QuoteLine(), ' ', Some(')'), [Group], []);
    QuotingIs(s, t, more, Nil);
    QuoteLineIs('"', None);
    QuotedFirst(n, QuoteLine());
  }

  /** Code that begins with a quoted text, and a row that may follow it. */
  lemma QuotedFirst(n: Node, rest: Nodes)
    requires n.Double? && Valid(InCode, n, [], '\n') && Waits(n, []) == [] && Last(Print(n)) == '"'
    requires ValidAll(InCode, rest, [], '"', None)
    ensures var ns := Cons(n, rest);
      && Legible(ns) && PrintAll(ns) == Print(n) + PrintAll(rest)
      && ShownAll(InCode, ns) == Shown(InCode, n) + ShownAll(InCode, rest)
      && ((forall next :: Reads(InCode, n, next, [], [])) && Told(rest, '"', None, []) ==> Told(ns, '\n', None, []))
  {
    if (forall next :: Reads(InCode, n, next, [], [])) && Told(rest, '"', None, []) {
      FirstTold(n, rest, '\n', None, [], []);
    }
  }

  lemma HashLine()
    ensures var q := Cons(Plain("\n#"), Nil);
      && (forall c :: ValidAll(InQuote, q, [], c, Some('"'))) && WaitsAll(q, []) == [] && PrintAll(q) == "\n#"
      && ShownAll(InQuote, q) == "\n_" && SealedAll(q)
  {
    assert forall c :: PlainText(InQuote, "\n#", c);
    assert Blanked("\n#") == "\n_";
  }

  /** The misreading: the same characters, and the same of them left. */
  lemma TwiceReadIs(s: string, t: string, a: string)
    requires ArmText(s, t) && a == ArmPrinted(s, t, "")
    ensures Legible(TwiceRead(s, t)) && SealedAll(TwiceRead(s, t))
    ensures PrintAll(TwiceRead(s, t)) == "\"" + (("$(" + (a + "") + ")") + "\n#") + "\"" + ("\n" + (")" + "\"\n#\"\n"))
    ensures ShownAll(InCode, TwiceRead(s, t)) == "_" + (("$(" + (a + "") + ")") + "\n_") + "_" + ("\n" + (")" + "_\n__\n"))
  {
    var q := Cons(Plain("\n#"), Nil);
    var n := Double(q);
    var tail := Cons(n, Cons(LINE, Nil));
    var rest := Cons(LINE, Cons(Paren(false), tail));
    HashLine();
    QuotingIs(s, t, Nil, q);
    QuotingSeals(s, t, q);
    TailEnd(n, tail);
    TailIs(tail, rest);
    QuotedFirst(Quoting(s, t, Nil, q), rest);
  }

  lemma TwiceTexts(a: string)
    ensures "\"" + (("$(" + (a + (")" + "\n#\"\n")) + ")") + "") + "\"" + "\n#\"\n"
         == "\"" + (("$(" + (a + "") + ")") + "\n#") + "\"" + ("\n" + (")" + "\"\n#\"\n"))
    ensures "_" + (("$(" + (a + (")" + "\n__\n")) + ")") + "") + "_" + "\n__\n"
         == "_" + (("$(" + (a + "") + ")") + "\n_") + "_" + ("\n" + (")" + "_\n__\n"))
  {
  }

  lemma HashDouble(n: Node)
    requires n == Double(Cons(Plain("\n#"), Nil))
    ensures Valid(InCode, n, [], ')') && Sealed(n) && Waits(n, []) == [] && Last(Print(n)) == '"'
    ensures Print(n) == "\"\n#\"" && Shown(InCode, n) == "_\n__"
  {
    HashLine();
  }

  lemma TailIs(a: Nodes, rest: Nodes)
    requires rest == Cons(LINE, Cons(Paren(false), a)) && Row(a, ')', None)
    requires PrintAll(a) == "\"\n#\"\n" && ShownAll(InCode, a) == "_\n__\n"
    ensures Row(rest, '"', None) && PrintAll(rest) == "\n" + (")" + "\"\n#\"\n")
    ensures ShownAll(InCode, rest) == "\n" + (")" + "_\n__\n")
  {
    ParenFirst(false, a, '\n', None, [], []);
    LineFirst(Cons(Paren(false), a), '"', None, []);
  }

  lemma TailEnd(n: Node, a: Nodes)
    requires n == Double(Cons(Plain("\n#"), Nil)) && a == Cons(n, Cons(LINE, Nil))
    ensures Row(a, ')', None) && PrintAll(a) == "\"\n#\"\n" && ShownAll(InCode, a) == "_\n__\n"
  {
    HashDouble(n);
    LineFirst(Nil, '"', None, []);
    First(n, Cons(LINE, Nil), ')', None);
  }

  /** The group's parenthesis ends the substitution in the tree's first node, and the place is lost. */
  lemma TwiceLosesPlace(s: string, t: string)
    requires ArmText(s, t)
    ensures Followed(Twice(s, t)) == None
  {
    var body, fs := Arm(s, t, Cons(Paren(false), QuoteLine())), [BOTTOM] + [Quote];
    TwiceIsOpen(s, t, body);
    SubstIff(InQuote, body, fs);
    assert FollowAll(InQuote, Cons(Subst(body), Nil), fs) == None;
    assert Follow(InCode, Double(Cons(Subst(body), Nil)), [BOTTOM]) == None;
  }

  lemma TwiceIsOpen(s: string, t: string, body: Nodes)
    requires ArmText(s, t) && body == Arm(s, t, Cons(Paren(false), QuoteLine()))
    ensures SealedAll(body) && !Closed(body)
  {
    var more := Cons(Paren(false), QuoteLine());
    ArmWalk(s, t, more);
    assert OwnAll(more, SUBSTITUTION) == None;
    QuoteLineIs(')', Some(')'));
    ParenFirst(false, QuoteLine(), ' ', Some(')'), [Group], []);
    ArmIs(s, t, more, '(', Some(')'));
  }

  /**
   Losing the place does not always show: what the masker makes of this script is right, because the
   misreading of the second comment undoes that of the first.
   */
  lemma LossesCancel(s: string, t: string)
    requires ArmText(s, t)
    ensures Script(Twice(s, t)) && Followed(Twice(s, t)) == None
    ensures MaskSpec(PrintAll(Twice(s, t))) == Masked(ShownAll(InCode, Twice(s, t)), Fine)
  {
    var a := ArmPrinted(s, t, "");
    TwiceIs(s, t, a);
    TwiceReadIs(s, t, a);
    TwiceTexts(a);
    TwiceLosesPlace(s, t);
    SealedRowIsRight(TwiceRead(s, t));
  }
}
