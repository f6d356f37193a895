/** What a finding points at is live code: nothing quoted, commented or in a here-document is reported. */
module PipesLive {
  import opened Masker
  import opened ShellTrees
  import opened MaskerCorrect
  import opened Pipes

  /** The character at k of the node's print is plain code: its own, or that of a substitution in it. */
  predicate LiveIn(p: Place, n: Node, k: nat)
    decreases n, 0
  {
    match n
    case Plain(_) => p.InCode?
    case Double(b) => k >= 1 && LiveAt(InQuote, b, k - 1)
    case Subst(b) => k >= 2 && LiveAt(InCode, b, k - 2)
    case Braces(b) => k >= 2 && LiveAt(Inside(p), b, k - 2)
    case _ => false
  }

  predicate LiveAt(p: Place, ns: Nodes, k: nat)
    decreases ns, 1
  {
    match ns
    case Nil => false
    case Cons(n, rest) => if k < |Print(n)| then LiveIn(p, n, k) else LiveAt(p, rest, k - |Print(n)|)
  }

  lemma {:induction false} ShownLength(p: Place, n: Node)
    ensures |Shown(p, n)| == |Print(n)|
    decreases n, 0
  {
    match n
    case Double(b) => RowLength(InQuote, b);
    case Subst(b) => RowLength(InCode, b);
    case Braces(b) => RowLength(Inside(p), b);
    case _ =>
  }

  lemma {:induction false} RowLength(p: Place, ns: Nodes)
    ensures |ShownAll(p, ns)| == |PrintAll(ns)|
    decreases ns, 1
  {
    if ns.Cons? {
      ShownLength(p, ns.head);
      RowLength(p, ns.tail);
    }
  }

  /** What is shown around a body is no pipe. */
  lemma InBody(a: string, b: string, z: string, k: nat)
    requires k < |a + b + z| && (a + b + z)[k] == '|' && Without(a, '|') && Without(z, '|')
    ensures |a| <= k < |a| + |b| && b[k - |a|] == '|'
  {
  }

  lemma {:induction false} PipeIsLiveIn(p: Place, n: Node, k: nat)
    requires k < |Shown(p, n)| && Shown(p, n)[k] == '|'
    ensures LiveIn(p, n, k)
    decreases n, 0
  {
    match n
    case Double(b) =>
      InBody("_", ShownAll(InQuote, b), "_", k);
      PipeIsLive(InQuote, b, k - 1);
    case Subst(b) =>
      InBody("$(", ShownAll(InCode, b), ")", k);
      PipeIsLive(InCode, b, k - 2);
    case Braces(b) =>
      InBody("__", ShownAll(Inside(p), b), "_", k);
      PipeIsLive(Inside(p), b, k - 2);
    case _ =>
  }

  /** Wherever a pipe is left, it is live. */
  lemma {:induction false} PipeIsLive(p: Place, ns: Nodes, k: nat)
    requires k < |ShownAll(p, ns)| && ShownAll(p, ns)[k] == '|'
    ensures LiveAt(p, ns, k)
    decreases ns, 1
  {
    var n := ns.head;
    ShownLength(p, n);
    if k < |Shown(p, n)| {
      PipeIsLiveIn(p, n, k);
    } else {
      PipeIsLive(p, ns.tail, k - |Print(n)|);
    }
  }

  /**
   For every script in which the masker keeps its place: a reader that is found starts at a pipe of the
   script's live code. So a pipe in quotes, in a comment or in a here-document is never reported.
   */
  lemma ReaderIsLive(ns: Nodes, ms: seq<Match>, r: Reader)
    requires Script(ns) && Followed(ns).Some?
    requires AtPipes(MaskSpec(PrintAll(ns)).text, ms) && r in ReadersIn(ms)
    ensures r.at < |PrintAll(ns)| && PrintAll(ns)[r.at] == '|'
    ensures r.at < |ShownAll(InCode, ns)| && ShownAll(InCode, ns)[r.at] == '|' && LiveAt(InCode, ns, r.at)
  {
    var text := PrintAll(ns);
    MaskIsRight(ns);
    RowLength(InCode, ns);
    ReaderIsAtPipe(text, ms, r);
    ReadersAtPipes(MaskSpec(text).text, ms, r);
    PipeIsLive(InCode, ns, r.at);
  }
}
