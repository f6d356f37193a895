/**
 What the masker is for, stated against a grammar and not against its loop: shell fragments nested
 to any depth, how they print, and what must be left of them once everything that is not live code
 is overwritten. The quoting is that of sections 2.2.2, 2.2.3 and 2.6.3 of the POSIX Shell Command
 Language, the tokens are those of 2.3, and the here-documents those of 2.7.4.

 Quotes, substitutions and parameters nest. Parentheses, the words case and esac, here-document
 operators and the bodies they name are tokens of their own, so a subshell, a case statement with its
 patterns, or any part of them is a row of nodes.

 `ValidAll` says that a row can be told from its print, token by token; `ReadsAll` that a shell tells
 it so. A script is both.
 */
module ShellTrees {
  import opened Options
  import opened Text
  import opened Masker

  datatype Nodes = Nil | Cons(head: Node, tail: Nodes)

  datatype Node =
    | Plain(s: string)       // characters that open nothing: live in code, text inside quotes
    | Single(s: string)      // '...'
    | Double(body: Nodes)    // "..."
    | Subst(body: Nodes)     // $(...)
    | Braces(body: Nodes)    // ${...}
    | Escape(c: char)        // a backslash and a character
    | Ansi(s: string)        // $'...'
    | Arith(s: string)       // $((...))
    | Comment(s: string)     // # and the rest of its line
    | HereString             // <<<
    | HereOp(op: Op)         // << and a delimiter
    | HereBodies(bodies: seq<Filled>, open: bool) // the newline, and the body of every here-document named
                                                  // before it; open when no newline ends the last one
    | Paren(opens: bool)     // ( or )
    | Keyword(opens: bool, reserved: bool) // case or esac: the reserved word, or an argument that is spelled so

  /** How a delimiter is written: between quotes, or as a name, with or without a backslash. */
  datatype Style = Marked(mark: char) | Named(escaped: bool)

  /** A here-document operator: what it names, the blanks before that, and how it is written. */
  datatype Op = Op(doc: Heredoc, gap: string, style: Style)

  /** The body of a here-document: its lines, and the line that closes it. */
  datatype Filled = Filled(lines: seq<string>, last: string)

  /** Where a node stands. */
  datatype Place = InCode | InQuote | InParam(inQuote: bool)

  predicate Fits(f: Frame, p: Place) {
    match p
    case InCode => f.Code?
    case InQuote => f == Quote
    case InParam(q) => f == Param(q)
  }

  function Inside(p: Place): Place {
    InParam(match p case InCode => false case InQuote => true case InParam(q) => q)
  }

  // ---- characters -------------------------------------------------------------------------------

  predicate Letter(c: char)
    ensures Letter(c) <==> IsAlpha(c)
  {
    'a' <= c <= 'z' || 'A' <= c <= 'Z'
  }

  /** A character of a name. */
  predicate NameChar(c: char)
    ensures NameChar(c) <==> IsWordChar(c)
  {
    Letter(c) || '0' <= c <= '9' || c == '_'
  }

  /** A # after this character begins a comment: it ends a word, and is no redirection and no closing parenthesis. */
  predicate BeforeComment(c: char)
    ensures BeforeComment(c) <==> CommentLead(c)
  {
    c in " \t\n;&|("
  }

  /** What comes after this character goes on with a word of the script, and is not one itself. */
  predicate MidWord(c: char)
    ensures MidWord(c) <==> Glue(c)
  {
    NameChar(c) || c in "-./$"
  }

  /** The line that ends a here-document is its delimiter, after any tabs if they are stripped. */
  predicate EndsDoc(doc: Heredoc, line: string)
    ensures EndsDoc(doc, line) <==> Closes(doc, line)
  {
    if doc.strip && line != "" && line[0] == '\t' then EndsDoc(doc, line[1..]) else line == doc.delim
  }

  // ---- printing ---------------------------------------------------------------------------------

  function Body(lines: seq<string>, last: string, open: bool): string {
    if lines == [] then (if open then last else last + "\n") else lines[0] + "\n" + Body(lines[1..], last, open)
  }

  function Bodies(bs: seq<Filled>, open: bool): string {
    if bs == [] then "" else Body(bs[0].lines, bs[0].last, open && |bs| == 1) + Bodies(bs[1..], open)
  }

  function Delim(op: Op): string {
    match op.style
    case Marked(mark) => [mark] + op.doc.delim + [mark]
    case Named(escaped) => (if escaped then "\\" else "") + op.doc.delim
  }

  function Operator(op: Op): string {
    "<<" + (if op.doc.strip then "-" else "") + (op.gap + Delim(op))
  }

  function ParenText(opens: bool): string {
    if opens then "(" else ")"
  }

  function Word(opens: bool): string {
    if opens then "case" else "esac"
  }

  function Print(n: Node): string {
    match n
    case Plain(s) => s
    case Single(s) => "'" + s + "'"
    case Double(b) => "\"" + PrintAll(b) + "\""
    case Subst(b) => "$(" + PrintAll(b) + ")"
    case Braces(b) => "${" + PrintAll(b) + "}"
    case Escape(c) => ['\\', c]
    case Ansi(s) => "$'" + s + "'"
    case Arith(s) => "$((" + s + "))"
    case Comment(s) => "#" + s
    case HereString => "<<<"
    case HereOp(op) => Operator(op)
    case HereBodies(bs, open) => "\n" + Bodies(bs, open)
    case Paren(opens) => ParenText(opens)
    case Keyword(opens, _) => Word(opens)
  }

  function PrintAll(ns: Nodes): string {
    match ns
    case Nil => ""
    case Cons(n, rest) => Print(n) + PrintAll(rest)
  }

  // ---- what must be left ------------------------------------------------------------------------

  function Shown(p: Place, n: Node): string
    decreases n
  {
    match n
    case Plain(s) => if p.InCode? then s else Blanked(s)
    case Double(b) => "_" + ShownAll(InQuote, b) + "_"
    case Subst(b) => "$(" + ShownAll(InCode, b) + ")"
    case Braces(b) => "__" + ShownAll(Inside(p), b) + "_"
    case Escape(c) => if p.InCode? && c == '\n' then "  " else Blanked(['\\', c])
    case HereString => "<<<"
    case Paren(opens) => ParenText(opens)
    case Keyword(opens, _) => Word(opens)
    case _ => Blanked(Print(n))
  }

  function ShownAll(p: Place, ns: Nodes): string
    decreases ns
  {
    match ns
    case Nil => ""
    case Cons(n, rest) => Shown(p, n) + ShownAll(p, rest)
  }

  // ---- which texts are what they are printed as -------------------------------------------------

  predicate Without(s: string, c: char) {
    forall k :: 0 <= k < |s| ==> s[k] != c
  }

  /** A $ at k, if it is not the last, opens no substitution and no parameter, nor, in code, a quote. */
  predicate DollarFits(s: string, k: nat, code: bool)
    requires k < |s|
  {
    s[k] == '$' && k + 1 < |s| ==> s[k + 1] != '(' && s[k + 1] != '{' && !(code && s[k + 1] == '\'')
  }

  predicate NoOpening(s: string, code: bool) {
    forall k: nat :: k < |s| ==> DollarFits(s, k, code)
  }

  /** The character before the one at k, where before stands before s. */
  function Prior(s: string, k: nat, before: char): char
    requires k < |s|
  {
    if k == 0 then before else s[k - 1]
  }

  /** A # at k begins no comment, and a <, if it is not the last, no here-document. */
  predicate CodeFits(s: string, k: nat, before: char)
    requires k < |s|
  {
    && (s[k] == '#' ==> !BeforeComment(Prior(s, k, before)))
    && (s[k] == '<' && k + 1 < |s| ==> s[k + 1] != '<')
  }

  /** The word w stands at k, and does not go on. */
  predicate WordStands(s: string, k: nat, w: string) {
    At(s, k, w) && (k + |w| < |s| ==> !NameChar(s[k + |w|]))
  }

  /** Nowhere in s does case or esac stand where a word can begin. */
  predicate Words(s: string, before: char) {
    forall k: nat :: k < |s| && !MidWord(Prior(s, k, before)) ==> !WordStands(s, k, "case") && !WordStands(s, k, "esac")
  }

  /** Code that opens nothing: no quotes, parentheses, comments, here-documents, case or esac. */
  predicate PlainCode(s: string, before: char) {
    && Without(s, '\\') && Without(s, '\'') && Without(s, '"') && Without(s, '(') && Without(s, ')')
    && NoOpening(s, true) && Words(s, before)
    && (forall k: nat :: k < |s| ==> CodeFits(s, k, before))
  }

  predicate PlainText(p: Place, s: string, before: char) {
    match p
    case InCode => PlainCode(s, before)
    case InQuote => Without(s, '\\') && Without(s, '"') && NoOpening(s, false)
    case InParam(q) =>
      && Without(s, '\\') && Without(s, '"') && Without(s, '}') && (q || Without(s, '\''))
      && NoOpening(s, false)
  }

  /** Every quote in s is escaped, and the last character is not a lone backslash. */
  predicate AnsiText(s: string) {
    s == "" || (s[0] != '\'' && (if s[0] == '\\' then |s| > 1 && AnsiText(s[2..]) else AnsiText(s[1..])))
  }

  /** Parentheses that balance, never closing more than they opened. */
  predicate Balanced(s: string, depth: nat) {
    if s == "" then depth == 0
    else if s[0] == '(' then Balanced(s[1..], depth + 1)
    else if s[0] == ')' then depth > 0 && Balanced(s[1..], depth - 1)
    else Balanced(s[1..], depth)
  }

  predicate Blanks(s: string) {
    forall k :: 0 <= k < |s| ==> s[k] == ' ' || s[k] == '\t'
  }

  /** The operator can be read back: quotes hold anything but themselves and newlines, a name is a word. */
  predicate Delimits(op: Op) {
    var delim := op.doc.delim;
    && delim != "" && Blanks(op.gap)
    && match op.style
       case Marked(mark) => (mark == '\'' || mark == '"') && Without(delim, mark) && Without(delim, '\n')
       case Named(_) => (Letter(delim[0]) || delim[0] == '_') && forall k :: 0 <= k < |delim| ==> NameChar(delim[k])
  }

  /** Lines that none of which closes the here-document. */
  predicate NoneCloses(doc: Heredoc, lines: seq<string>) {
    lines == [] || (Without(lines[0], '\n') && !EndsDoc(doc, lines[0]) && NoneCloses(doc, lines[1..]))
  }

  predicate DocBody(doc: Heredoc, lines: seq<string>, last: string) {
    NoneCloses(doc, lines) && Without(last, '\n') && EndsDoc(doc, last)
  }

  /** Each of the here-documents that wait has its body. */
  predicate Fill(waiting: seq<Heredoc>, bs: seq<Filled>) {
    if waiting == [] then bs == []
    else bs != [] && DocBody(waiting[0], bs[0].lines, bs[0].last) && Fill(waiting[1..], bs[1..])
  }

  // ---- which rows can be told from their print --------------------------------------------------

  /** The here-documents that wait after a node, when these wait before it. */
  function Waits(n: Node, waiting: seq<Heredoc>): seq<Heredoc> {
    match n
    case HereOp(op) => waiting + [op.doc]
    case HereBodies(_, _) => []
    case Double(b) => WaitsAll(b, waiting)
    case Subst(b) => WaitsAll(b, waiting)
    case Braces(b) => WaitsAll(b, waiting)
    case _ => waiting
  }

  function WaitsAll(ns: Nodes, waiting: seq<Heredoc>): seq<Heredoc> {
    match ns
    case Nil => waiting
    case Cons(n, rest) => WaitsAll(rest, Waits(n, waiting))
  }

  function Last(s: string): char
    requires s != ""
  {
    s[|s| - 1]
  }

  /** What comes after a piece of text: a character, or the end. */
  type Next = Option<char>

  predicate GoesOn(next: Next) {
    next.Some? && NameChar(next.value)
  }

  predicate Is(next: Next, c: char) {
    next == Some(c)
  }

  /** What follows plain text goes on with no word of it, and its last character opens nothing. */
  predicate PlainJoins(p: Place, last: char, next: Next) {
    && (p.InCode? ==> !(NameChar(last) && GoesOn(next)) && !(last == '<' && Is(next, '<')))
    && (last == '$' ==> !Is(next, '(') && !Is(next, '{') && !(p.InCode? && Is(next, '\'')))
  }

  /** What follows a node leaves it what it is. */
  predicate Joins(p: Place, n: Node, next: Next)
    requires Print(n) != ""
  {
    match n
    case Plain(s) => PlainJoins(p, Last(s), next)
    case Comment(_) => next.None? || Is(next, '\n')
    case HereOp(op) => op.style.Named? ==> !GoesOn(next)
    case HereBodies(_, open) => open ==> next.None?
    case Keyword(_, _) => !GoesOn(next)
    case _ => true
  }

  /** What follows a node is the rest of its row, or what follows the row. */
  function NextOf(rest: Nodes, after: Next): Next {
    if PrintAll(rest) == "" then after else Some(PrintAll(rest)[0])
  }

  /** The node is what it is printed as: here, with these here-documents waiting, after this character. */
  predicate Valid(p: Place, n: Node, waiting: seq<Heredoc>, before: char)
    decreases n
  {
    Print(n) != "" &&
    match n
    case Plain(s) => PlainText(p, s, before) && (p.InCode? && waiting != [] ==> Without(s, '\n'))
    case Single(s) => (p.InCode? || p == InParam(false)) && Without(s, '\'')
    case Double(b) => !p.InQuote? && ValidAll(InQuote, b, waiting, '"', Some('"'))
    case Subst(b) => ValidAll(InCode, b, waiting, '(', Some(')')) && !At(PrintAll(b), 0, "(")
    case Braces(b) => ValidAll(Inside(p), b, waiting, '{', Some('}'))
    case Escape(c) => true
    case Ansi(s) => p.InCode? && AnsiText(s)
    case Arith(s) => Balanced(s, 0)
    case Comment(s) => p.InCode? && Without(s, '\n') && BeforeComment(before)
    case HereString => p.InCode?
    case HereOp(op) => p.InCode? && Delimits(op)
    case HereBodies(bs, _) => p.InCode? && waiting != [] && Fill(waiting, bs)
    case Paren(_) => p.InCode?
    case Keyword(_, _) => p.InCode? && !MidWord(before)
  }

  /** Valid nodes in a row, each joined to what follows it. */
  predicate ValidAll(p: Place, ns: Nodes, waiting: seq<Heredoc>, before: char, after: Next)
    decreases ns
  {
    match ns
    case Nil => true
    case Cons(n, rest) =>
      && Valid(p, n, waiting, before) && Joins(p, n, NextOf(rest, after))
      && ValidAll(p, rest, Waits(n, waiting), Last(Print(n)), after)
  }

  // ---- which rows a shell tells so --------------------------------------------------------------

  /** A character that ends a shell's word, or the end. */
  predicate Parts(next: Next) {
    next.Some? ==> next.value in " \t\n;&|()<>"
  }

  /**
   A # after a node begins a comment to a shell exactly when it does by the character before it. After a
   continued line that depends on what was continued.
   */
  predicate HashFits(n: Node, before: char, next: Next) {
    Is(next, '#') ==>
      match n
      case Escape(c) => !BeforeComment(c) || (c == '\n' && BeforeComment(before))
      case Paren(opens) => opens
      case Plain(s) => s != "" && Last(s) != '<' && Last(s) != '>'
      case HereString => false
      case _ => true
  }

  /** No # in plain code follows a redirection. */
  predicate NoHashes(s: string) {
    forall k :: 0 < k < |s| && s[k] == '#' ==> s[k - 1] != '<' && s[k - 1] != '>'
  }

  /** What arithmetic holds is no code: no substitution but further arithmetic. */
  predicate NoCode(s: string) {
    Without(s, '`') && forall k :: 0 <= k < |s| && Two(s, k, '$', '(') ==> Three(s, k, '$', '(', '(')
  }

  /** The backslashes s ends in pair up, so that the last escapes no newline. */
  predicate Complete(s: string) {
    s == "" || Last(s) != '\\' || (|s| > 1 && s[|s| - 2] == '\\' && Complete(s[..|s| - 2]))
  }

  /**
   Lines of a here-document whose name is not quoted, the first going on from carry: no line joined from
   several closes it, and the line after them is not joined to them.
   */
  predicate LinesRead(doc: Heredoc, lines: seq<string>, carry: string) {
    if lines == [] then carry == ""
    else if Complete(lines[0]) then (carry != "" ==> !EndsDoc(doc, carry + lines[0])) && LinesRead(doc, lines[1..], "")
    else LinesRead(doc, lines[1..], carry + lines[0][..|lines[0]| - 1])
  }

  /** The here-documents named and not yet filled. */
  function Ops(n: Node, ops: seq<Op>): seq<Op> {
    match n
    case HereOp(op) => ops + [op]
    case HereBodies(_, _) => []
    case _ => ops
  }

  function OpsAll(ns: Nodes, ops: seq<Op>): seq<Op> {
    match ns
    case Nil => ops
    case Cons(n, rest) => OpsAll(rest, Ops(n, ops))
  }

  predicate NoBodies(ns: Nodes) {
    match ns
    case Nil => true
    case Cons(n, rest) => !n.HereBodies? && NoBodies(rest)
  }

  /** What is open: a group, an arithmetic command, a case statement. */
  datatype Nest = Group | Math | Case

  /**
   What is open after a node. Two opening parentheses together begin an arithmetic command. A closing one
   closes the group it stands in, or, in a case statement, ends a pattern; where nothing is open it would
   end the substitution.
   */
  function Nested(n: Node, rest: Nodes, nest: seq<Nest>): Option<seq<Nest>> {
    match n
    case Paren(opens) =>
      if opens then Some(nest + [if rest.Cons? && rest.head == Paren(true) then Math else Group])
      else if nest == [] then None
      else if nest[|nest| - 1].Case? then Some(nest)
      else Some(nest[..|nest| - 1])
    case Keyword(opens, reserved) =>
      if !reserved then Some(nest)
      else if opens then Some(nest + [Case])
      else if nest != [] && nest[|nest| - 1].Case? then Some(nest[..|nest| - 1])
      else None
    case _ => Some(nest)
  }

  function NestAll(ns: Nodes, nest: seq<Nest>): Option<seq<Nest>> {
    match ns
    case Nil => Some(nest)
    case Cons(n, rest) =>
      match Nested(n, rest, nest)
      case None => None
      case Some(more) => NestAll(rest, more)
  }

  /** Everything the row opens it closes, and nothing else. */
  predicate Paired(ns: Nodes) {
    NestAll(ns, []) == Some([])
  }

  /**
   A shell reads the node so, with these here-documents unfilled and this open. A substitution closes what
   it opens, and fills the here-documents it names and no others. In an arithmetic command no << names one.
   */
  predicate Reads(p: Place, n: Node, next: Next, ops: seq<Op>, nest: seq<Nest>)
    decreases n
  {
    match n
    case Plain(s) =>
      if p.InCode? then Count(s, '`') % 2 == 0 && NoHashes(s)
      else Without(s, '`') && (s != "" && Last(s) == '$' ==> !Is(next, '\''))
    case Arith(s) => NoCode(s)
    case Double(b) => ReadsAll(InQuote, b, '"', Some('"'), ops, [])
    case Braces(b) => ReadsAll(Inside(p), b, '{', Some('}'), ops, [])
    case Subst(b) =>
      && ReadsAll(InCode, b, '(', Some(')'), [], []) && Paired(b)
      && OpsAll(b, []) == [] && (ops != [] ==> NoBodies(b))
    case HereOp(op) => Math !in nest && Parts(next) && (op.style == Marked('"') ==> Without(op.doc.delim, '\\'))
    case HereBodies(bs, _) =>
      && Math !in nest && |bs| == |ops|
      && forall k :: 0 <= k < |bs| && ops[k].style == Named(false) ==> LinesRead(ops[k].doc, bs[k].lines, "")
    case HereString => Math !in nest
    case Comment(_) => Math !in nest
    case _ => true
  }

  predicate ReadsAll(p: Place, ns: Nodes, before: char, after: Next, ops: seq<Op>, nest: seq<Nest>)
    decreases ns
  {
    match ns
    case Nil => true
    case Cons(n, rest) =>
      var next, more := NextOf(rest, after), Nested(n, rest, nest);
      && Print(n) != "" && Reads(p, n, next, ops, nest) && (p.InCode? ==> HashFits(n, before, next)) && more.Some?
      && ReadsAll(p, rest, Last(Print(n)), after, Ops(n, ops), more.value)
  }

  /** The start of a script is like the start of a line. */
  predicate Legible(ns: Nodes) {
    ValidAll(InCode, ns, [], '\n', None)
  }

  /** A whole script: told from its print, and by a shell so, with nothing left open. */
  predicate Script(ns: Nodes) {
    Legible(ns) && ReadsAll(InCode, ns, '\n', None, [], []) && Paired(ns) && OpsAll(ns, []) == []
  }

  // ---- parentheses ------------------------------------------------------------------------------

  function Deeper(f: Frame): Frame
    requires f.Code?
  {
    f.(depth := f.depth + 1)
  }

  /** One more case statement open, or one less. */
  function AfterKeyword(f: Frame, opens: bool): (g: Frame)
    requires f.Code?
    ensures g == AfterWord(f, Word(opens))
  {
    if opens then f.(cases := f.cases + 1) else if f.cases > 0 then f.(cases := f.cases - 1) else f
  }

  /** A closing parenthesis closes a group; or ends a pattern; or ends the substitution; or does nothing. */
  function AfterParen(frames: seq<Frame>): (r: seq<Frame>)
    requires |frames| >= 1 && Top(frames).Code?
    ensures r == AfterClose(frames)
  {
    var outer, f := frames[..|frames| - 1], Top(frames);
    if f.depth > 0 then outer + [Code(f.sub, f.depth - 1, f.cases)]
    else if f.cases > 0 || !f.sub then frames
    else outer
  }

  /** The frames after a closing character took g to h, if that leaves the masker in place p. */
  function Landed(h: seq<Frame>, p: Place): (r: Option<seq<Frame>>)
    ensures r.Some? ==> r.value == h && Sound(h) && Fits(Top(h), p)
  {
    if Sound(h) && Fits(Top(h), p) then Some(h) else None
  }

  /**
   The frames after a node, when these are the frames before it: its parentheses and its words case and
   esac, counted through. None when a closing parenthesis ends a substitution that stands in a quote or
   in a parameter, though the tree is still in code.
   */
  function Follow(p: Place, n: Node, frames: seq<Frame>): (r: Option<seq<Frame>>)
    requires Sound(frames) && Fits(Top(frames), p)
    ensures r.Some? ==> Sound(r.value) && Fits(Top(r.value), p)
    decreases n
  {
    var f := Top(frames);
    match n
    case Paren(opens) =>
      if !f.Code? then Some(frames)
      else if opens then Some(Replace(frames, Deeper(f)))
      else Landed(AfterParen(frames), p)
    case Keyword(opens, _) => if f.Code? then Some(Replace(frames, AfterKeyword(f, opens))) else Some(frames)
    case Double(b) =>
      (match FollowAll(InQuote, b, frames + [Quote])
       case None => None
       case Some(g) => Landed(Pop(g), p))
    case Braces(b) =>
      (match FollowAll(Inside(p), b, frames + [Param(Inside(p).inQuote)])
       case None => None
       case Some(g) => Landed(Pop(g), p))
    case Subst(b) =>
      (match FollowAll(InCode, b, frames + [SUBSTITUTION])
       case None => None
       case Some(g) => Landed(AfterParen(g), p))
    case _ => Some(frames)
  }

  function FollowAll(p: Place, ns: Nodes, frames: seq<Frame>): (r: Option<seq<Frame>>)
    requires Sound(frames) && Fits(Top(frames), p)
    ensures r.Some? ==> Sound(r.value) && Fits(Top(r.value), p)
    decreases ns
  {
    match ns
    case Nil => Some(frames)
    case Cons(n, rest) =>
      match Follow(p, n, frames)
      case None => None
      case Some(g) => FollowAll(p, rest, g)
  }

  const SUBSTITUTION := Code(true, 0, 0)

  /** The walk over the parentheses and words of one frame's own: None when one of them ends the frame. */
  function Own(n: Node, f: Frame): (r: Option<Frame>)
    requires f.Code?
    ensures r.Some? ==> r.value.Code? && r.value.sub == f.sub
  {
    match n
    case Paren(opens) =>
      if opens then Some(Deeper(f))
      else if f.depth > 0 then Some(f.(depth := f.depth - 1))
      else if f.sub && f.cases == 0 then None
      else Some(f)
    case Keyword(opens, _) => Some(AfterKeyword(f, opens))
    case _ => Some(f)
  }

  function OwnAll(ns: Nodes, f: Frame): (r: Option<Frame>)
    requires f.Code?
    ensures r.Some? ==> r.value.Code? && r.value.sub == f.sub
  {
    match ns
    case Nil => Some(f)
    case Cons(n, rest) =>
      match Own(n, f)
      case None => None
      case Some(g) => OwnAll(rest, g)
  }

  /** No parenthesis before the last ends the substitution, and the last one does. */
  predicate Closed(b: Nodes) {
    OwnAll(b, SUBSTITUTION) == Some(SUBSTITUTION)
  }

  /** Every substitution in the node, at any depth, is ended by its own parenthesis. */
  predicate Sealed(n: Node)
    decreases n
  {
    match n
    case Double(b) => SealedAll(b)
    case Braces(b) => SealedAll(b)
    case Subst(b) => Closed(b) && SealedAll(b)
    case _ => true
  }

  predicate SealedAll(ns: Nodes)
    decreases ns
  {
    match ns
    case Nil => true
    case Cons(n, rest) => Sealed(n) && SealedAll(rest)
  }
}
