/**
 Where the masker reads a script otherwise than a shell, and says nothing: a here-document's name that goes
 on after what the masker takes of it, << in an arithmetic command, backquotes in quotes, substitutions in
 arithmetic, and # after an escaped blank or a closing parenthesis. Trees that need these are no scripts.
 */
module MaskerMisreads {
  import opened Options
  import opened Text
  import opened Masker
  import opened ShellTrees
  import opened MaskerRuns
  import opened MaskerCorrect
  import opened MaskerWalks
  import opened MaskerCut
  import opened MaskerLimits

  // ---- the name of a here-document --------------------------------------------------------------

  datatype Read = Read(word: string, end: nat)

  /**
   The word a shell reads from k on, with its quotes removed: up to a blank, an operator or the end.
   Inside double quotes a backslash is a character like any other here.
   */
  function ShellWord(text: string, k: nat): Read
    decreases |text| - k
  {
    if Parts(CharAt(text, k)) then Read("", k)
    else if text[k] == '\\' && k + 1 < |text| then Onto([text[k + 1]], ShellWord(text, k + 2))
    else if text[k] == '\'' || text[k] == '"' then
      var q := Find(text, text[k], k + 1);
      if q == |text| then Read(text[k + 1..], q) else Onto(text[k + 1..q], ShellWord(text, q + 1))
    else Onto([text[k]], ShellWord(text, k + 1))
  }

  function Onto(s: string, r: Read): Read {
    r.(word := s + r.word)
  }

  lemma {:induction false} WordAdvances(text: string, k: nat)
    ensures k <= ShellWord(text, k).end && (!Parts(CharAt(text, k)) ==> k < ShellWord(text, k).end)
    decreases |text| - k
  {
    if !Parts(CharAt(text, k)) {
      if text[k] == '\\' && k + 1 < |text| {
        WordAdvances(text, k + 2);
      } else if text[k] == '\'' || text[k] == '"' {
        var q := Find(text, text[k], k + 1);
        if q < |text| {
          WordAdvances(text, q + 1);
        }
      } else {
        WordAdvances(text, k + 1);
      }
    }
  }

  /** A character that is part of a word as it is. */
  predicate Unquoted(c: char) {
    !Parts(Some(c)) && c != '\\' && c != '\'' && c != '"'
  }

  lemma {:induction false} NameReads(text: string, k: nat, e: nat)
    requires k <= e <= |text| && forall j :: k <= j < e ==> Unquoted(text[j])
    ensures ShellWord(text, k) == Onto(text[k..e], ShellWord(text, e))
    decreases e - k
  {
    if k < e {
      NameReads(text, k + 1, e);
      assert text[k..e] == [text[k]] + text[k + 1..e];
      assert [text[k]] + (text[k + 1..e] + ShellWord(text, e).word) == text[k..e] + ShellWord(text, e).word;
    } else {
      assert "" + ShellWord(text, e).word == ShellWord(text, e).word;
    }
  }

  /** What is read from e on is nothing exactly when the word ends there. */
  lemma EndsThere(text: string, s: string, e: nat)
    ensures Onto(s, ShellWord(text, e)) == Read(s, e) <==> Parts(CharAt(text, e))
  {
    WordAdvances(text, e);
    assert s + "" == s;
  }

  /** Where the name begins. */
  function NameStart(text: string, i: nat): nat
    requires Two(text, i, '<', '<')
  {
    SkipBlanks(text, if i + 2 < |text| && text[i + 2] == '-' then i + 3 else i + 2)
  }

  /**
   Wherever the masker finds a here-document: it takes the name a shell takes, and ends it where a shell
   does, if and only if a blank, an operator or the end comes after what it takes.
   */
  lemma NameIsShellsIff(text: string, i: nat, e: nat, doc: Heredoc)
    requires Two(text, i, '<', '<') && HeredocAt(text, i) == Doc(e, doc)
    ensures ShellWord(text, NameStart(text, i)) == Read(doc.delim, e) <==> Parts(CharAt(text, e))
  {
    var d := NameStart(text, i);
    assert Delimiter(text, d, doc.strip) == Doc(e, doc);
    NameRead(text, d, e, doc);
    EndsThere(text, doc.delim, e);
  }

  lemma NameRead(text: string, d: nat, e: nat, doc: Heredoc)
    requires d <= |text| && Delimiter(text, d, doc.strip) == Doc(e, doc)
    ensures d < e <= |text| && ShellWord(text, d) == Onto(doc.delim, ShellWord(text, e))
  {
    if text[d] == '\'' || text[d] == '"' {
      QuotedName(text, d, e, doc);
    } else {
      BareName(text, d, e, doc);
    }
  }

  lemma QuotedName(text: string, d: nat, e: nat, doc: Heredoc)
    requires d < |text| && (text[d] == '\'' || text[d] == '"') && Delimiter(text, d, doc.strip) == Doc(e, doc)
    ensures e <= |text| && ShellWord(text, d) == Onto(doc.delim, ShellWord(text, e))
  {
  }

  lemma BareName(text: string, d: nat, e: nat, doc: Heredoc)
    requires d < |text| && text[d] != '\'' && text[d] != '"' && Delimiter(text, d, doc.strip) == Doc(e, doc)
    ensures e <= |text| && ShellWord(text, d) == Onto(doc.delim, ShellWord(text, e))
  {
    var s := if text[d] == '\\' then d + 1 else d;
    assert e == WordEnd(text, s) && doc.delim == text[s..e];
    if s == d {
      NameReads(text, d, e);
    } else {
      NameReads(text, d + 2, e);
      EscapedName(text, d, e);
    }
  }

  lemma EscapedName(text: string, d: nat, e: nat)
    requires d + 1 < e <= |text| && text[d] == '\\'
    requires ShellWord(text, d + 2) == Onto(text[d + 2..e], ShellWord(text, e))
    ensures ShellWord(text, d) == Onto(text[d + 1..e], ShellWord(text, e))
  {
    var r := ShellWord(text, e);
    assert [text[d + 1]] + (text[d + 2..e] + r.word) == text[d + 1..e] + r.word;
  }

  // ---- and what comes of it ---------------------------------------------------------------------

  lemma FirstRow(n: Node, rest: Nodes, ws: seq<Heredoc>, before: char, after: Next)
    requires Valid(InCode, n, ws, before) && Joins(InCode, n, NextOf(rest, after))
    requires ValidAll(InCode, rest, Waits(n, ws), Last(Print(n)), after) && Sealed(n) && SealedAll(rest)
    ensures var ns := Cons(n, rest);
      && ValidAll(InCode, ns, ws, before, after) && SealedAll(ns) && PrintAll(ns) == Print(n) + PrintAll(rest)
      && ShownAll(InCode, ns) == Shown(InCode, n) + ShownAll(InCode, rest)
      && WaitsAll(ns, ws) == WaitsAll(rest, Waits(n, ws))
  {
  }

  /** Lines none of which the masker takes for the end of the here-document: all of them are overwritten. */
  lemma LinesAreLost(ns: Nodes, doc: Heredoc, lines: seq<string>, part: string)
    requires ValidAll(InCode, ns, [], '\n', Some('\n')) && WaitsAll(ns, []) == [doc]
    requires SealedAll(ns) && NoneCloses(doc, lines) && Without(part, '\n')
    ensures MaskSpec(PrintAll(ns) + ("\n" + (Lines(lines) + part)))
         == Masked(ShownAll(InCode, ns) + Blanked("\n" + (Lines(lines) + part)), Fine)
  {
    var c := InBodies(ns, [], lines, part);
    var t := "\n" + (Lines(lines) + part);
    NoneFilled(ns, doc, lines, part, c, t);
    SealedIsFollowed(ns);
    CutIsRight(c);
  }

  lemma NoneFilled(ns: Nodes, doc: Heredoc, lines: seq<string>, part: string, c: Cut, t: string)
    requires ValidAll(InCode, ns, [], '\n', Some('\n')) && WaitsAll(ns, []) == [doc]
    requires NoneCloses(doc, lines) && Without(part, '\n')
    requires c == InBodies(ns, [], lines, part) && t == "\n" + (Lines(lines) + part)
    ensures Tail(c) == t && PrintCut(c) == PrintAll(ns) + t && LegibleCut(c) && CutFollowed(c) == Followed(ns)
    ensures ShownCut(InCode, c) == ShownAll(InCode, ns) + Blanked(t) && !Unclosed(c)
  {
    assert Bodies([], false) == "";
    assert "" + (Lines(lines) + part) == Lines(lines) + part;
    assert |[doc][..0]| == 0 && Fill([doc][..0], []);
    assert Filling([doc], [], lines, part);
  }

  /** A name, and the rest of it, which the masker leaves live: no quotes, and nothing that ends a word. */
  predicate LongName(name: string, d: string) {
    && name != "" && (Letter(name[0]) || name[0] == '_') && (forall k :: 0 <= k < |name| ==> NameChar(name[k]))
    && d != "" && PlainCode(d, Last(name)) && !NameChar(d[0]) && (forall k :: 0 <= k < |d| ==> Unquoted(d[k]))
  }

  /** <<name and the rest of it: as the masker reads it. */
  function LongRow(name: string, d: string): Nodes {
    Cons(HereOp(Op(Heredoc(name, false), "", Named(false))), Cons(Plain(d), Nil))
  }

  lemma LongRowIs(name: string, d: string)
    requires LongName(name, d)
    ensures var ns := LongRow(name, d);
      && ValidAll(InCode, ns, [], '\n', Some('\n')) && WaitsAll(ns, []) == [Heredoc(name, false)] && SealedAll(ns)
      && PrintAll(ns) == "<<" + name + d && ShownAll(InCode, ns) == Blanked("<<" + name) + d
  {
    var op := Op(Heredoc(name, false), "", Named(false));
    var n, rest := HereOp(op), Cons(Plain(d), Nil);
    LongRest(name, d, [op.doc]);
    assert Operator(op) == "<<" + name && Last(Operator(op)) == Last(name);
    assert [] + [op.doc] == [op.doc] && Delimits(op);
    FirstRow(n, rest, [], '\n', Some('\n'));
  }

  lemma LongRest(name: string, d: string, ws: seq<Heredoc>)
    requires LongName(name, d)
    ensures var ns := Cons(Plain(d), Nil);
      && ValidAll(InCode, ns, ws, Last(name), Some('\n')) && SealedAll(ns) && WaitsAll(ns, ws) == ws
      && PrintAll(ns) == d && ShownAll(InCode, ns) == d
  {
    assert Without(d, '\n') && d + "" == d;
    FirstRow(Plain(d), Nil, ws, Last(name), Some('\n'));
  }

  /** A shell reads the whole of it. */
  lemma LongIsRead(name: string, d: string, body: string)
    requires LongName(name, d) && body != "" && body[0] == '\n'
    ensures ShellWord("<<" + name + d + body, 2) == Read(name + d, 2 + |name + d|)
  {
    var text, w := "<<" + name + d + body, name + d;
    var e := 2 + |w|;
    assert text[2..e] == w && text[e] == '\n';
    forall j | 2 <= j < e ensures Unquoted(text[j]) {
      assert text[j] == w[j - 2];
    }
    NameReads(text, 2, e);
    EndsThere(text, w, e);
  }

  /**
   For every here-document whose name goes on so: the masker waits for a line that is not the shell's, and,
   when none comes, overwrites the script to its end, the code after the here-document with it, and reports
   no loss.
   */
  lemma LongNameIsLost(name: string, d: string, lines: seq<string>, part: string)
    requires LongName(name, d) && NoneCloses(Heredoc(name, false), lines) && Without(part, '\n')
    ensures var body := "\n" + (Lines(lines) + part);
      && ShellWord("<<" + name + d + body, 2) == Read(name + d, 2 + |name + d|)
      && MaskSpec("<<" + name + d + body) == Masked(Blanked("<<" + name) + d + Blanked(body), Fine)
  {
    var ns := LongRow(name, d);
    LongRowIs(name, d);
    LongIsRead(name, d, "\n" + (Lines(lines) + part));
    LinesAreLost(ns, Heredoc(name, false), lines, part);
  }

  /** The line that ends the here-document to a shell does not to the masker. */
  lemma LongLineDoesNotClose(name: string, d: string)
    requires LongName(name, d)
    ensures !EndsDoc(Heredoc(name, false), name + d) && Without(name + d, '\n')
  {
  }

  // ---- << in an arithmetic command --------------------------------------------------------------

  /** ((a<<name)), as the masker reads it. */
  function ShiftRow(a: string, name: string): Nodes {
    Cons(Paren(true), Cons(Paren(true), Cons(Plain(a), ShiftEnd(name))))
  }

  function ShiftEnd(name: string): Nodes {
    Cons(HereOp(Op(Heredoc(name, false), "", Named(false))), Cons(Paren(false), Cons(Paren(false), Nil)))
  }

  predicate ShiftText(a: string, name: string) {
    && a != "" && PlainCode(a, '(') && Last(a) != '<'
    && name != "" && (Letter(name[0]) || name[0] == '_') && (forall k :: 0 <= k < |name| ==> NameChar(name[k]))
  }

  lemma ShiftEndIs(name: string, before: char, w: string)
    requires ShiftText(" ", name) && w == "<<" + name
    ensures var ns := ShiftEnd(name);
      && ValidAll(InCode, ns, [], before, Some('\n')) && WaitsAll(ns, []) == [Heredoc(name, false)] && SealedAll(ns)
      && PrintAll(ns) == w + (")" + (")" + "")) && ShownAll(InCode, ns) == Blanked(w) + (")" + (")" + ""))
  {
    var op, close := Op(Heredoc(name, false), "", Named(false)), Cons(Paren(false), Nil);
    ShiftOp(name, w, op);
    FirstRow(Paren(false), Nil, [op.doc], ')', Some('\n'));
    FirstRow(Paren(false), close, [op.doc], Last(name), Some('\n'));
    FirstRow(HereOp(op), Cons(Paren(false), close), [], before, Some('\n'));
  }

  lemma ShiftOp(name: string, w: string, op: Op)
    requires ShiftText(" ", name) && w == "<<" + name && op == Op(Heredoc(name, false), "", Named(false))
    ensures Operator(op) == w && Last(w) == Last(name) && [] + [op.doc] == [op.doc] && Delimits(op)
  {
  }

  lemma ShiftRowIs(a: string, name: string, w: string)
    requires ShiftText(a, name) && ShiftText(" ", name) && w == "<<" + name
    ensures var ns := ShiftRow(a, name);
      && ValidAll(InCode, ns, [], '\n', Some('\n')) && WaitsAll(ns, []) == [Heredoc(name, false)] && SealedAll(ns)
      && PrintAll(ns) == "(" + ("(" + (a + (w + (")" + (")" + "")))))
      && ShownAll(InCode, ns) == "(" + ("(" + (a + (Blanked(w) + (")" + (")" + "")))))
  {
    var end, p := ShiftEnd(name), Cons(Plain(a), ShiftEnd(name));
    ShiftEndIs(name, Last(a), w);
    assert PrintAll(end)[0] == '<';
    FirstRow(Plain(a), end, [], '(', Some('\n'));
    FirstRow(Paren(true), p, [], '(', Some('\n'));
    FirstRow(Paren(true), Cons(Paren(true), p), [], '\n', Some('\n'));
  }

  lemma ShiftTexts(a: string, w: string)
    ensures "(" + ("(" + (a + (w + (")" + (")" + ""))))) == "((" + a + w + "))"
  {
  }

  /** A shift by a variable is taken for a here-document, and the lines after it for its body. */
  lemma ShiftIsLost(a: string, name: string, lines: seq<string>, part: string)
    requires ShiftText(a, name) && NoneCloses(Heredoc(name, false), lines) && Without(part, '\n')
    ensures var w, body := "<<" + name, "\n" + (Lines(lines) + part);
      MaskSpec("((" + a + w + "))" + body) == Masked("((" + a + Blanked(w) + "))" + Blanked(body), Fine)
  {
    var w := "<<" + name;
    assert PlainCode(" ", '(');
    ShiftRowIs(a, name, w);
    ShiftTexts(a, w);
    ShiftTexts(a, Blanked(w));
    LinesAreLost(ShiftRow(a, name), Heredoc(name, false), lines, part);
  }

  // ---- what is overwritten though it is code, and kept though it is not --------------------------

  /** Quoted text is overwritten, whatever stands between backquotes in it. */
  lemma BackquotesAreBlanked(s: string)
    requires s != "" && PlainText(InQuote, s, '"')
    ensures MaskSpec("\"" + s + "\"") == Masked("_" + Blanked(s) + "_", Fine)
  {
    var b := Cons(Plain(s), Nil);
    var n := Double(b);
    assert s + "" == s && Blanked(s) + "" == Blanked(s);
    assert NextOf(Nil, Some('"')) == Some('"') && !Is(Some('"'), '(') && !Is(Some('"'), '{');
    assert Valid(InQuote, Plain(s), [], '"') && Joins(InQuote, Plain(s), Some('"'));
    assert PrintAll(b) == s && ShownAll(InQuote, b) == Blanked(s) && ValidAll(InQuote, b, [], '"', Some('"'));
    OneNode(n);
  }

  /** One node alone. */
  lemma OneNode(n: Node)
    requires Valid(InCode, n, [], '\n') && Joins(InCode, n, None) && Sealed(n)
    ensures MaskSpec(Print(n)) == Masked(Shown(InCode, n), Fine)
  {
    var ns := Cons(n, Nil);
    assert Print(n) + "" == Print(n) && Shown(InCode, n) + "" == Shown(InCode, n);
    assert Legible(ns) && SealedAll(ns);
    SealedRowIsRight(ns);
  }

  /** Arithmetic is overwritten, whatever is substituted in it. */
  lemma ArithmeticIsBlanked(s: string)
    requires Balanced(s, 0)
    ensures MaskSpec("$((" + s + "))") == Masked(Blanked("$((" + s + "))"), Fine)
  {
    OneNode(Arith(s));
  }

  /** After an escaped blank or operator a # begins a comment to the masker; to a shell it goes on with a word. */
  lemma HashAfterEscape(c: char, s: string)
    requires BeforeComment(c) && c != '\n' && Without(s, '\n')
    ensures MaskSpec(['\\', c] + ("#" + s)) == Masked("__" + Blanked("#" + s), Fine)
  {
    var n, ns := Comment(s), Cons(Comment(s), Nil);
    assert "#" + s + "" == "#" + s && Blanked("#" + s) + "" == Blanked("#" + s);
    FirstRow(n, Nil, [], c, None);
    assert Last(['\\', c]) == c && Blanked(['\\', c]) == "__";
    FirstRow(Escape(c), ns, [], '\n', None);
    SealedRowIsRight(Cons(Escape(c), ns));
  }

  /** After a closing parenthesis it is the other way round. */
  lemma HashAfterParen(s: string)
    requires PlainCode("#" + s, ')')
    ensures MaskSpec("()#" + s) == Masked("()#" + s, Fine)
  {
    var n := Plain("#" + s);
    var a := Cons(Paren(false), Cons(n, Nil));
    assert "#" + s + "" == "#" + s;
    FirstRow(n, Nil, [], ')', None);
    FirstRow(Paren(false), Cons(n, Nil), [], '(', None);
    FirstRow(Paren(true), a, [], '\n', None);
    assert "(" + (")" + ("#" + s)) == "()#" + s;
    SealedRowIsRight(Cons(Paren(true), a));
  }

  /** A line of a here-document that a shell joins to the one that would end it, and code after it. */
  function JoinedRow(name: string, x: string, r: string): Nodes {
    Cons(HereOp(Op(Heredoc(name, false), "", Named(false))),
         Cons(HereBodies([Filled([x + "\\"], name)], false), Cons(Plain(r), Nil)))
  }

  predicate JoinedText(name: string, x: string, r: string) {
    && ShiftText(" ", name) && x != "" && Without(x, '\n') && Last(x) != '\\'
    && r != "" && PlainCode(r, '\n')
  }

  function JoinedPrinted(name: string, x: string): string {
    "\n" + (x + "\\" + "\n" + (name + "\n"))
  }

  lemma JoinedBody(name: string, x: string, n: Node, doc: Heredoc)
    requires JoinedText(name, x, " ") && doc == Heredoc(name, false)
    requires n == HereBodies([Filled([x + "\\"], name)], false)
    ensures Valid(InCode, n, [doc], Last(name)) && Waits(n, [doc]) == [] && Sealed(n) && !LinesRead(doc, [x + "\\"], "")
    ensures Print(n) == JoinedPrinted(name, x)
  {
    var line := x + "\\";
    var f := Filled([line], name);
    assert line[..|line| - 1] == x && Last(line) == '\\' && line[|line| - 2] == Last(x);
    assert |[line][1..]| == 0 && |[f][1..]| == 0 && |[doc][1..]| == 0;
    assert !EndsDoc(doc, line) by {
      assert line[|line| - 1] == '\\';
    }
    assert Body([line], name, false) == line + "\n" + (name + "\n");
    assert Bodies([f], false) == Body([line], name, false) + "";
  }

  lemma JoinedRowIs(name: string, x: string, r: string, w: string)
    requires JoinedText(name, x, r) && JoinedText(name, x, " ") && w == "<<" + name
    ensures var ns := JoinedRow(name, x, r);
      && Legible(ns) && SealedAll(ns) && PrintAll(ns) == w + (JoinedPrinted(name, x) + (r + ""))
      && ShownAll(InCode, ns) == Blanked(w) + (Blanked(JoinedPrinted(name, x)) + (r + ""))
  {
    var op, b := Op(Heredoc(name, false), "", Named(false)), HereBodies([Filled([x + "\\"], name)], false);
    ShiftOp(name, w, op);
    JoinedBody(name, x, b, op.doc);
    assert Last(JoinedPrinted(name, x)) == '\n' && JoinedPrinted(name, x)[0] == '\n';
    FilledRow(op, b, r, w, JoinedPrinted(name, x));
  }

  /** An operator, the body it names, and code. */
  lemma FilledRow(op: Op, b: Node, r: string, w: string, p: string)
    requires op.style == Named(false) && Delimits(op) && Operator(op) == w && w != "" && r != "" && PlainCode(r, '\n')
    requires b.HereBodies? && !b.open && Valid(InCode, b, [op.doc], Last(w)) && Sealed(b) && Print(b) == p
    requires p[0] == '\n' && Last(p) == '\n'
    ensures var ns := Cons(HereOp(op), Cons(b, Cons(Plain(r), Nil)));
      && Legible(ns) && SealedAll(ns) && PrintAll(ns) == w + (p + (r + ""))
      && ShownAll(InCode, ns) == Blanked(w) + (Blanked(p) + (r + ""))
  {
    assert [] + [op.doc] == [op.doc];
    FirstRow(Plain(r), Nil, [], '\n', None);
    FirstRow(b, Cons(Plain(r), Nil), [op.doc], Last(w), None);
    FirstRow(HereOp(op), Cons(b, Cons(Plain(r), Nil)), [], '\n', None);
  }

  /** The masker ends the here-document where a shell goes on with it, and takes the rest of it for code. */
  lemma JoinedLineEnds(name: string, x: string, r: string)
    requires JoinedText(name, x, r)
    ensures !LinesRead(Heredoc(name, false), [x + "\\"], "")
    ensures var w, body := "<<" + name, JoinedPrinted(name, x);
      MaskSpec(w + body + r) == Masked(Blanked(w) + Blanked(body) + r, Fine)
  {
    var w, body := "<<" + name, JoinedPrinted(name, x);
    assert PlainCode(" ", '\n');
    JoinedBody(name, x, HereBodies([Filled([x + "\\"], name)], false), Heredoc(name, false));
    JoinedRowIs(name, x, r, w);
    assert w + (body + (r + "")) == w + body + r;
    assert Blanked(w) + (Blanked(body) + (r + "")) == Blanked(w) + Blanked(body) + r;
    SealedRowIsRight(JoinedRow(name, x, r));
  }

  // ---- and what is right all the same -----------------------------------------------------------

  /** Plain code, if any, and a row after it. */
  lemma CodeThen(s: string, ns: Nodes, w: string, m: string)
    requires w != "" && (s == "" || (PlainCode(s, '\n') && PlainJoins(InCode, Last(s), Some(w[0]))))
    requires PrintAll(ns) == w && ShownAll(InCode, ns) == m && SealedAll(ns)
    requires ValidAll(InCode, ns, [], if s == "" then '\n' else Last(s), None)
    ensures MaskSpec(s + w) == Masked(s + m, Fine)
  {
    if s == "" {
      SealedRowIsRight(ns);
      assert s + w == w && s + m == m;
    } else {
      FirstRow(Plain(s), ns, [], '\n', None);
      SealedRowIsRight(Cons(Plain(s), ns));
    }
  }

  lemma CommentAlone(c: string, before: char)
    requires Without(c, '\n') && before in [' ', '\t', '\n', ';', '&', '|', '(']
    ensures var ns := Cons(Comment(c), Nil);
      && ValidAll(InCode, ns, [], before, None) && SealedAll(ns) && PrintAll(ns) == "#" + c
      && ShownAll(InCode, ns) == Blanked("#" + c)
  {
    assert "#" + c + "" == "#" + c && Blanked("#" + c) + "" == Blanked("#" + c);
    FirstRow(Comment(c), Nil, [], before, None);
  }

  /** A comment at the start of the text, or after code that ends in any of these characters, is overwritten. */
  lemma CommentIsRight(s: string, c: string)
    requires s == "" || (PlainCode(s, '\n') && Last(s) in [' ', '\t', '\n', ';', '&', '|'])
    requires Without(c, '\n')
    ensures MaskSpec(s + ("#" + c)) == Masked(s + Blanked("#" + c), Fine)
  {
    CommentAlone(c, if s == "" then '\n' else Last(s));
    CodeThen(s, Cons(Comment(c), Nil), "#" + c, Blanked("#" + c));
  }

  /** So is one after an opening parenthesis that opens no substitution. */
  lemma CommentInGroup(s: string, c: string)
    requires s == "" || (PlainCode(s, '\n') && Last(s) != '$')
    requires Without(c, '\n')
    ensures MaskSpec(s + ("(" + ("#" + c))) == Masked(s + ("(" + Blanked("#" + c)), Fine)
  {
    CommentAlone(c, '(');
    FirstRow(Paren(true), Cons(Comment(c), Nil), [], if s == "" then '\n' else Last(s), None);
    CodeThen(s, Cons(Paren(true), Cons(Comment(c), Nil)), "(" + ("#" + c), "(" + Blanked("#" + c));
  }

  /** A file that is redirected from a quoted name: code that ends in <, and quoted text. */
  function Redirect(s: string, q: string): Nodes {
    Cons(Plain(s), Cons(Double(Cons(Plain(q), Nil)), Nil))
  }

  lemma RedirectIsRight(s: string, q: string)
    requires s != "" && PlainCode(s, '\n') && Calm(s) && Last(s) == '<'
    requires q != "" && PlainText(InQuote, q, '"') && Without(q, '`')
    ensures Script(Redirect(s, q)) && MaskSpec(s + ("\"" + q + "\"")) == Masked(s + ("_" + Blanked(q) + "_"), Fine)
  {
    var n := Double(Cons(Plain(q), Nil));
    QuotedIs(q, n);
    First(n, Nil, Last(s), None);
    FirstTold(n, Nil, Last(s), None, [], []);
    assert Print(n) + "" == Print(n) && Shown(InCode, n) + "" == Shown(InCode, n);
    assert NextOf(Cons(n, Nil), None) == Some('"');
    PlainFirst(s, Cons(n, Nil), '\n', None, []);
    SealedIsRight(Redirect(s, q));
  }

  lemma QuotedIs(q: string, n: Node)
    requires q != "" && PlainText(InQuote, q, '"') && Without(q, '`') && n == Double(Cons(Plain(q), Nil))
    ensures Print(n) == "\"" + q + "\"" && Shown(InCode, n) == "_" + Blanked(q) + "_" && Sealed(n) && Waits(n, []) == []
    ensures forall c :: Valid(InCode, n, [], c)
    ensures Reads(InCode, n, None, [], []) && Last(Print(n)) == '"' && Print(n)[0] == '"'
  {
    var b := Cons(Plain(q), Nil);
    assert q + "" == q && Blanked(q) + "" == Blanked(q);
    assert NextOf(Nil, Some('"')) == Some('"') && !Is(Some('"'), '(') && !Is(Some('"'), '{');
    assert Valid(InQuote, Plain(q), [], '"') && Joins(InQuote, Plain(q), Some('"'));
    assert PrintAll(b) == q && ShownAll(InQuote, b) == Blanked(q) && ValidAll(InQuote, b, [], '"', Some('"'));
    assert Reads(InQuote, Plain(q), Some('"'), [], []) && Nested(Plain(q), Nil, []) == Some([]);
    assert ReadsAll(InQuote, Nil, Last(q), Some('"'), [], []);
    assert ReadsAll(InQuote, b, '"', Some('"'), [], []);
    assert Waits(Plain(q), []) == [] && WaitsAll(b, []) == WaitsAll(Nil, []);
  }

  /** A script that ends with the delimiter line of a here-document, and no newline. */
  function LastLine(name: string, lines: seq<string>): Nodes {
    Cons(HereOp(Op(Heredoc(name, false), "", Marked('\''))), Cons(HereBodies([Filled(lines, name)], true), Nil))
  }

  lemma LastLineIsRight(name: string, lines: seq<string>)
    requires name != "" && Without(name, '\'') && Without(name, '\n') && NoneCloses(Heredoc(name, false), lines)
    ensures var w, body := "<<'" + name + "'", "\n" + Body(lines, name, true);
      Script(LastLine(name, lines)) && MaskSpec(w + body) == Masked(Blanked(w) + Blanked(body), Fine)
  {
    var w, body := "<<'" + name + "'", "\n" + Body(lines, name, true);
    var op := Op(Heredoc(name, false), "", Marked('\''));
    var b := HereBodies([Filled(lines, name)], true);
    LastBody(name, lines, op, b);
    assert Operator(op) == w;
    LastIsLegible(op, b, w, body);
    LastIsRead(op, b, w);
    SealedIsRight(LastLine(name, lines));
  }

  lemma LastIsLegible(op: Op, b: Node, w: string, p: string)
    requires op.style.Marked? && Delimits(op) && Operator(op) == w && w != ""
    requires b.HereBodies? && b.open && (forall c :: Valid(InCode, b, [op.doc], c)) && Waits(b, [op.doc]) == []
    requires Sealed(b) && Print(b) == p && p != ""
    ensures var ns := Cons(HereOp(op), Cons(b, Nil));
      && Legible(ns) && SealedAll(ns) && PrintAll(ns) == w + p && ShownAll(InCode, ns) == Blanked(w) + Blanked(p)
  {
    assert [] + [op.doc] == [op.doc] && p + "" == p && Blanked(p) + "" == Blanked(p);
    FirstRow(b, Nil, [op.doc], Last(w), None);
    FirstRow(HereOp(op), Cons(b, Nil), [], '\n', None);
  }

  lemma LastBody(name: string, lines: seq<string>, op: Op, b: Node)
    requires op == Op(Heredoc(name, false), "", Marked('\'')) && b == HereBodies([Filled(lines, name)], true)
    requires name != "" && Without(name, '\n') && NoneCloses(Heredoc(name, false), lines)
    ensures forall c :: Valid(InCode, b, [op.doc], c)
    ensures Waits(b, [op.doc]) == [] && Sealed(b) && Print(b) == "\n" + Body(lines, name, true)
    ensures Reads(InCode, b, None, [op], []) && Ops(b, [op]) == []
  {
    var f := Filled(lines, name);
    assert |[f][1..]| == 0 && |[op.doc][1..]| == 0;
    assert Fill([op.doc], [f]);
    assert Bodies([f], true) == Body(lines, name, true) + "" == Body(lines, name, true);
  }

  lemma LastIsRead(op: Op, b: Node, w: string)
    requires op.style == Marked('\'') && Operator(op) == w && w != "" && Print(b) != "" && Print(b)[0] == '\n'
    requires b.HereBodies? && Reads(InCode, b, None, [op], []) && Ops(b, [op]) == []
    ensures var ns := Cons(HereOp(op), Cons(b, Nil));
      ReadsAll(InCode, ns, '\n', None, [], []) && OpsAll(ns, []) == [] && NestAll(ns, []) == Some([])
  {
    assert [] + [op] == [op];
    assert ReadsAll(InCode, Cons(b, Nil), Last(w), None, [op], []);
    assert NestAll(Cons(b, Nil), []) == Some([]) && OpsAll(Cons(b, Nil), [op]) == [];
  }
}
