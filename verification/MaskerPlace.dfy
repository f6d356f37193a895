/**
 Where the masker stands in a tree: in the place of the tree, all the way, exactly when no parenthesis
 ends a substitution too soon.
 */
module MaskerPlace {
  import opened Options
  import opened Text
  import opened Masker
  import opened MaskerPath
  import opened ShellTrees
  import opened MaskerRuns
  import opened MaskerCorrect

  /** The loop stops at e, and stands in place p there. */
  predicate Placed(text: string, e: nat, p: Place) {
    match SpotAt(text, START, e)
    case None => false
    case Some(s) => Fits(Top(s.frames), p)
  }

  /** At the end of the node at i, and of every node in it, the masker stands where the tree does. */
  predicate Kept(text: string, i: nat, p: Place, n: Node)
    decreases n, 1
  {
    Placed(text, i + |Print(n)|, p) && KeptWithin(text, i, p, n)
  }

  predicate KeptWithin(text: string, i: nat, p: Place, n: Node)
    decreases n, 0
  {
    match n
    case Double(b) => KeptAll(text, i + 1, InQuote, b)
    case Subst(b) => KeptAll(text, i + 2, InCode, b)
    case Braces(b) => KeptAll(text, i + 2, Inside(p), b)
    case _ => true
  }

  predicate KeptAll(text: string, i: nat, p: Place, ns: Nodes)
    decreases ns, 2
  {
    match ns
    case Nil => true
    case Cons(n, rest) => Kept(text, i, p, n) && KeptAll(text, i + |Print(n)|, p, rest)
  }

  /** A way from a visited spot settles where the masker stands at its end. */
  lemma PlacedAfter(text: string, a: Spot, x: string, b: Spot, p: Place)
    requires SpotAt(text, START, a.i) == Some(a) && Leads(text, a, x, b)
    ensures Sound(b.frames) && SpotAt(text, START, b.i) == Some(b) && (Placed(text, b.i, p) <==> Fits(Top(b.frames), p))
  {
    LeadsThere(text, a, x, b);
    Visited(text, START, a, x, b);
  }

  lemma LeafKept(text: string, i: nat, e: nat, fs: seq<Frame>, ws: seq<Heredoc>, p: Place, n: Node, before: char)
    requires Ready(text, i, fs, p, before) && Valid(p, n, ws, before) && At(text, i, Print(n)) && !Nests(n)
    requires e == i + |Print(n)| && Joins(p, n, CharAt(text, e)) && SpotAt(text, START, i) == Some(Spot(i, fs, ws))
    ensures Placed(text, e, p) <==> Follow(p, n, fs).Some?
  {
    if Follow(p, n, fs).Some? {
      Masks(text, i, e, fs, ws, p, n, before);
      PlacedAfter(text, Spot(i, fs, ws), Shown(p, n), Spot(e, Follow(p, n, fs).value, Waits(n, ws)), p);
    } else {
      ParenRun(text, i, false, fs, ws);
      PlacedAfter(text, Spot(i, fs, ws), ")", Spot(i + |ParenText(false)|, AfterClose(fs), ws), p);
    }
  }

  /** Where the masker stands after a closing parenthesis. */
  lemma SubstShuts(text: string, i: nat, e: nat, fs: seq<Frame>, ws: seq<Heredoc>, p: Place)
    requires i < |text| && text[i] == ')' && e == i + 1 && Sound(fs) && Top(fs).Code?
    requires SpotAt(text, START, i) == Some(Spot(i, fs, ws))
    ensures Placed(text, e, p) <==> Landed(AfterClose(fs), p).Some?
  {
    SubstCloses(text, i, e, fs, ws);
    PlacedAfter(text, Spot(i, fs, ws), ")", Spot(e, AfterClose(fs), ws), p);
  }

  /** And after the character that closes a quote or a parameter. */
  lemma QuotedShuts(text: string, i: nat, e: nat, fs: seq<Frame>, ws: seq<Heredoc>, p: Place)
    requires i < |text| && e == i + 1 && Sound(fs) && SpotAt(text, START, i) == Some(Spot(i, fs, ws))
    requires (Top(fs) == Quote && text[i] == '"') || (Top(fs).Param? && text[i] == '}')
    ensures Placed(text, e, p) <==> Landed(Pop(fs), p).Some?
  {
    CloseQuoted(text, i, e, fs, ws);
    PlacedAfter(text, Spot(i, fs, ws), "_", Spot(e, Pop(fs), ws), p);
  }

  lemma IntoBraces(text: string, i: nat, fs: seq<Frame>, ws: seq<Heredoc>, p: Place, w: string)
    requires Sound(fs) && Fits(Top(fs), p) && At(text, i, "${" + w + "}") && SpotAt(text, START, i) == Some(Spot(i, fs, ws))
    ensures var gs, e := fs + [Param(Inside(p).inQuote)], i + 2 + |w|;
      && Ready(text, i + 2, gs, Inside(p), '{') && At(text, i + 2, w) && e < |text| && text[e] == '}'
      && SpotAt(text, START, i + 2) == Some(Spot(i + 2, gs, ws))
  {
    BracesOpens(text, i, fs, ws, p, w);
    PlacedAfter(text, Spot(i, fs, ws), "__", Spot(i + 2, fs + [Param(Inside(p).inQuote)], ws), Inside(p));
  }

  lemma IntoSubst(text: string, i: nat, fs: seq<Frame>, ws: seq<Heredoc>, p: Place, w: string)
    requires Sound(fs) && Fits(Top(fs), p) && At(text, i, "$(" + w + ")") && !At(w, 0, "(")
    requires SpotAt(text, START, i) == Some(Spot(i, fs, ws))
    ensures var gs, e := fs + [SUBSTITUTION], i + 2 + |w|;
      && Ready(text, i + 2, gs, InCode, '(') && At(text, i + 2, w) && e < |text| && text[e] == ')'
      && SpotAt(text, START, i + 2) == Some(Spot(i + 2, gs, ws))
  {
    SubstOpens(text, i, fs, ws, p, w);
    PlacedAfter(text, Spot(i, fs, ws), "$(", Spot(i + 2, fs + [SUBSTITUTION], ws), InCode);
  }

  lemma IntoDouble(text: string, i: nat, fs: seq<Frame>, ws: seq<Heredoc>, p: Place, w: string)
    requires Sound(fs) && Fits(Top(fs), p) && !p.InQuote? && At(text, i, "\"" + w + "\"")
    requires SpotAt(text, START, i) == Some(Spot(i, fs, ws))
    ensures var gs, e := fs + [Quote], i + 1 + |w|;
      && Ready(text, i + 1, gs, InQuote, '"') && At(text, i + 1, w) && e < |text| && text[e] == '"'
      && SpotAt(text, START, i + 1) == Some(Spot(i + 1, gs, ws))
  {
    DoubleOpens(text, i, fs, ws, p, w);
    PlacedAfter(text, Spot(i, fs, ws), "_", Spot(i + 1, fs + [Quote], ws), InQuote);
  }

  /** The body of a quote or a parameter, and where the masker stands after the character that closes it. */
  lemma QuotedBodyKept(text: string, i: nat, j: nat, e: nat, gs: seq<Frame>, ws: seq<Heredoc>, p: Place,
                       q: Place, b: Nodes, before: char)
    requires !q.InCode? && Ready(text, i, gs, q, before) && ValidAll(q, b, ws, before, CharAt(text, j))
    requires At(text, i, PrintAll(b))
    requires j == i + |PrintAll(b)| && e == j + 1 && j < |text| && text[j] == (if q.InQuote? then '"' else '}')
    requires SpotAt(text, START, i) == Some(Spot(i, gs, ws))
    ensures KeptAll(text, i, q, b) <==> FollowAll(q, b, gs).Some?
    ensures FollowAll(q, b, gs).Some? ==> (Placed(text, e, p) <==> Landed(Pop(FollowAll(q, b, gs).value), p).Some?)
    decreases b, 3
  {
    AllKept(text, i, j, gs, ws, q, b, before, CharAt(text, j));
    if FollowAll(q, b, gs).Some? {
      BodyEnds(text, i, j, gs, ws, q, b, before, CharAt(text, j));
      QuotedShuts(text, j, e, FollowAll(q, b, gs).value, WaitsAll(b, ws), p);
    }
  }

  lemma DoubleKept(text: string, i: nat, e: nat, fs: seq<Frame>, ws: seq<Heredoc>, p: Place, n: Node, before: char)
    requires n.Double? && Ready(text, i, fs, p, before) && Valid(p, n, ws, before) && At(text, i, Print(n))
    requires e == i + |Print(n)| && SpotAt(text, START, i) == Some(Spot(i, fs, ws))
    ensures Kept(text, i, p, n) <==> Follow(p, n, fs).Some?
    decreases n, 0
  {
    var b := n.body;
    IntoDouble(text, i, fs, ws, p, PrintAll(b));
    QuotedBodyKept(text, i + 1, e - 1, e, fs + [Quote], ws, p, InQuote, b, '"');
    DoubleIsFollowed(text, i, e, fs, p, n, b);
  }

  lemma DoubleIsFollowed(text: string, i: nat, e: nat, fs: seq<Frame>, p: Place, n: Node, b: Nodes)
    requires n == Double(b) && Sound(fs) && Fits(Top(fs), p) && e == i + |Print(n)|
    requires KeptAll(text, i + 1, InQuote, b) <==> FollowAll(InQuote, b, fs + [Quote]).Some?
    requires FollowAll(InQuote, b, fs + [Quote]).Some? ==>
      (Placed(text, e, p) <==> Landed(Pop(FollowAll(InQuote, b, fs + [Quote]).value), p).Some?)
    ensures Kept(text, i, p, n) <==> Follow(p, n, fs).Some?
  {
    assert KeptWithin(text, i, p, n) == KeptAll(text, i + 1, InQuote, b);
  }

  lemma BracesKept(text: string, i: nat, e: nat, fs: seq<Frame>, ws: seq<Heredoc>, p: Place, n: Node, before: char)
    requires n.Braces? && Ready(text, i, fs, p, before) && Valid(p, n, ws, before) && At(text, i, Print(n))
    requires e == i + |Print(n)| && SpotAt(text, START, i) == Some(Spot(i, fs, ws))
    ensures Kept(text, i, p, n) <==> Follow(p, n, fs).Some?
    decreases n, 0
  {
    var q, b := Inside(p), n.body;
    IntoBraces(text, i, fs, ws, p, PrintAll(b));
    QuotedBodyKept(text, i + 2, e - 1, e, fs + [Param(q.inQuote)], ws, p, q, b, '{');
    BracesIsFollowed(text, i, e, fs, p, n, q, b, FollowAll(q, b, fs + [Param(q.inQuote)]));
  }

  lemma BracesIsFollowed(text: string, i: nat, e: nat, fs: seq<Frame>, p: Place, n: Node, q: Place, b: Nodes,
                         left: Option<seq<Frame>>)
    requires n == Braces(b) && q == Inside(p) && Sound(fs) && Fits(Top(fs), p) && e == i + |Print(n)|
    requires left == FollowAll(q, b, fs + [Param(q.inQuote)])
    requires KeptAll(text, i + 2, q, b) <==> left.Some?
    requires left.Some? ==> (Placed(text, e, p) <==> Landed(Pop(left.value), p).Some?)
    ensures Kept(text, i, p, n) <==> Follow(p, n, fs).Some?
  {
    assert KeptWithin(text, i, p, n) == KeptAll(text, i + 2, q, b);
    assert Follow(p, n, fs) == match left case None => None case Some(g) => Landed(Pop(g), p);
  }

  lemma SubstKept(text: string, i: nat, e: nat, fs: seq<Frame>, ws: seq<Heredoc>, p: Place, n: Node, before: char)
    requires n.Subst? && Ready(text, i, fs, p, before) && Valid(p, n, ws, before) && At(text, i, Print(n))
    requires e == i + |Print(n)| && SpotAt(text, START, i) == Some(Spot(i, fs, ws))
    ensures Kept(text, i, p, n) <==> Follow(p, n, fs).Some?
    decreases n, 0
  {
    var b := n.body;
    IntoSubst(text, i, fs, ws, p, PrintAll(b));
    SubstBodyKept(text, i + 2, e - 1, e, fs + [SUBSTITUTION], ws, p, b);
    SubstIsFollowed(text, i, e, fs, p, n, b);
  }

  /** The body, and where the masker stands after the parenthesis that closes it. */
  lemma SubstBodyKept(text: string, i: nat, j: nat, e: nat, gs: seq<Frame>, ws: seq<Heredoc>, p: Place, b: Nodes)
    requires Ready(text, i, gs, InCode, '(') && ValidAll(InCode, b, ws, '(', Some(')')) && At(text, i, PrintAll(b))
    requires j == i + |PrintAll(b)| && e == j + 1 && j < |text| && text[j] == ')'
    requires SpotAt(text, START, i) == Some(Spot(i, gs, ws))
    ensures KeptAll(text, i, InCode, b) <==> FollowAll(InCode, b, gs).Some?
    ensures FollowAll(InCode, b, gs).Some? ==>
      (Placed(text, e, p) <==> Landed(AfterClose(FollowAll(InCode, b, gs).value), p).Some?)
    decreases b, 3
  {
    AllKept(text, i, j, gs, ws, InCode, b, '(', Some(')'));
    if FollowAll(InCode, b, gs).Some? {
      BodyEnds(text, i, j, gs, ws, InCode, b, '(', Some(')'));
      SubstShuts(text, j, e, FollowAll(InCode, b, gs).value, WaitsAll(b, ws), p);
    }
  }

  lemma SubstIsFollowed(text: string, i: nat, e: nat, fs: seq<Frame>, p: Place, n: Node, b: Nodes)
    requires n == Subst(b) && Sound(fs) && Fits(Top(fs), p) && e == i + |Print(n)|
    requires KeptAll(text, i + 2, InCode, b) <==> FollowAll(InCode, b, fs + [SUBSTITUTION]).Some?
    requires FollowAll(InCode, b, fs + [SUBSTITUTION]).Some? ==>
      (Placed(text, e, p) <==> Landed(AfterClose(FollowAll(InCode, b, fs + [SUBSTITUTION]).value), p).Some?)
    ensures Kept(text, i, p, n) <==> Follow(p, n, fs).Some?
  {
    assert KeptWithin(text, i, p, n) == KeptAll(text, i + 2, InCode, b);
  }

  /** The end of a body that is followed is visited. */
  lemma BodyEnds(text: string, i: nat, e: nat, fs: seq<Frame>, ws: seq<Heredoc>,
                 p: Place, ns: Nodes, before: char, after: Next)
    requires Ready(text, i, fs, p, before) && ValidAll(p, ns, ws, before, after) && At(text, i, PrintAll(ns))
    requires e == i + |PrintAll(ns)| && CharAt(text, e) == after && FollowAll(p, ns, fs).Some?
    requires SpotAt(text, START, i) == Some(Spot(i, fs, ws))
    ensures SpotAt(text, START, e) == Some(Spot(e, FollowAll(p, ns, fs).value, WaitsAll(ns, ws)))
  {
    MasksAll(text, i, e, fs, ws, p, ns, before, after);
    PlacedAfter(text, Spot(i, fs, ws), ShownAll(p, ns), Spot(e, FollowAll(p, ns, fs).value, WaitsAll(ns, ws)), p);
  }

  lemma NodeEnds(text: string, i: nat, e: nat, fs: seq<Frame>, ws: seq<Heredoc>, p: Place, n: Node, before: char)
    requires Ready(text, i, fs, p, before) && Valid(p, n, ws, before) && At(text, i, Print(n))
    requires e == i + |Print(n)| && Joins(p, n, CharAt(text, e)) && Follow(p, n, fs).Some?
    requires SpotAt(text, START, i) == Some(Spot(i, fs, ws))
    ensures SpotAt(text, START, e) == Some(Spot(e, Follow(p, n, fs).value, Waits(n, ws)))
  {
    Masks(text, i, e, fs, ws, p, n, before);
    PlacedAfter(text, Spot(i, fs, ws), Shown(p, n), Spot(e, Follow(p, n, fs).value, Waits(n, ws)), p);
  }

  /** The masker keeps its place in one fragment exactly when no parenthesis ends a substitution too soon. */
  lemma {:induction false} NodeKept(text: string, i: nat, e: nat, fs: seq<Frame>, ws: seq<Heredoc>,
                                    p: Place, n: Node, before: char)
    requires Ready(text, i, fs, p, before) && Valid(p, n, ws, before) && At(text, i, Print(n))
    requires e == i + |Print(n)| && Joins(p, n, CharAt(text, e)) && SpotAt(text, START, i) == Some(Spot(i, fs, ws))
    ensures Kept(text, i, p, n) <==> Follow(p, n, fs).Some?
    decreases n, 1
  {
    if n.Double? {
      DoubleKept(text, i, e, fs, ws, p, n, before);
    } else if n.Subst? {
      SubstKept(text, i, e, fs, ws, p, n, before);
    } else if n.Braces? {
      BracesKept(text, i, e, fs, ws, p, n, before);
    } else {
      LeafKept(text, i, e, fs, ws, p, n, before);
      LeafIsPlaced(text, i, p, n);
    }
  }

  lemma LeafIsPlaced(text: string, i: nat, p: Place, n: Node)
    requires !Nests(n)
    ensures Kept(text, i, p, n) == Placed(text, i + |Print(n)|, p)
  {
  }

  lemma {:induction false} AllKept(text: string, i: nat, e: nat, fs: seq<Frame>, ws: seq<Heredoc>,
                                   p: Place, ns: Nodes, before: char, after: Next)
    requires Ready(text, i, fs, p, before) && ValidAll(p, ns, ws, before, after) && At(text, i, PrintAll(ns))
    requires e == i + |PrintAll(ns)| && CharAt(text, e) == after && SpotAt(text, START, i) == Some(Spot(i, fs, ws))
    ensures KeptAll(text, i, p, ns) <==> FollowAll(p, ns, fs).Some?
    decreases ns, 2
  {
    match ns
    case Nil =>
    case Cons(n, rest) =>
      var j := InRow(text, i, e, p, ns, ws, before, after);
      RowKept(text, i, j, e, fs, ws, p, ns, n, rest, before, after);
  }

  lemma RowKept(text: string, i: nat, j: nat, e: nat, fs: seq<Frame>, ws: seq<Heredoc>,
                p: Place, ns: Nodes, n: Node, rest: Nodes, before: char, after: Next)
    requires ns == Cons(n, rest) && Ready(text, i, fs, p, before) && Valid(p, n, ws, before) && At(text, i, Print(n))
    requires j == i + |Print(n)| && Joins(p, n, CharAt(text, j)) && SpotAt(text, START, i) == Some(Spot(i, fs, ws))
    requires Before(text, j, Last(Print(n))) && ValidAll(p, rest, Waits(n, ws), Last(Print(n)), after)
    requires At(text, j, PrintAll(rest)) && e == j + |PrintAll(rest)| && CharAt(text, e) == after
    ensures KeptAll(text, i, p, ns) <==> FollowAll(p, ns, fs).Some?
    decreases ns, 1
  {
    NodeKept(text, i, j, fs, ws, p, n, before);
    if Follow(p, n, fs).Some? {
      RestKept(text, i, j, e, fs, ws, p, n, rest, before, after);
    }
    ConsKept(text, i, fs, p, n, rest);
  }

  lemma RestKept(text: string, i: nat, j: nat, e: nat, fs: seq<Frame>, ws: seq<Heredoc>,
                 p: Place, n: Node, rest: Nodes, before: char, after: Next)
    requires Ready(text, i, fs, p, before) && Valid(p, n, ws, before) && At(text, i, Print(n))
    requires j == i + |Print(n)| && Joins(p, n, CharAt(text, j)) && Follow(p, n, fs).Some?
    requires SpotAt(text, START, i) == Some(Spot(i, fs, ws))
    requires Before(text, j, Last(Print(n))) && ValidAll(p, rest, Waits(n, ws), Last(Print(n)), after)
    requires At(text, j, PrintAll(rest)) && e == j + |PrintAll(rest)| && CharAt(text, e) == after
    ensures KeptAll(text, j, p, rest) <==> FollowAll(p, rest, Follow(p, n, fs).value).Some?
    decreases rest, 3
  {
    NodeEnds(text, i, j, fs, ws, p, n, before);
    AllKept(text, j, e, Follow(p, n, fs).value, Waits(n, ws), p, rest, Last(Print(n)), after);
  }

  lemma ConsKept(text: string, i: nat, fs: seq<Frame>, p: Place, n: Node, rest: Nodes)
    requires Sound(fs) && Fits(Top(fs), p) && (Kept(text, i, p, n) <==> Follow(p, n, fs).Some?)
    requires Follow(p, n, fs).Some? ==>
      (KeptAll(text, i + |Print(n)|, p, rest) <==> FollowAll(p, rest, Follow(p, n, fs).value).Some?)
    ensures KeptAll(text, i, p, Cons(n, rest)) <==> FollowAll(p, Cons(n, rest), fs).Some?
  {
  }

  /**
   For every tree of shell: at the end of every fragment of it, at any depth, the masker stands where the
   tree does, in code, in quotes or in a parameter, if and only if the walk over the parentheses and the
   words case and esac never ends a substitution too soon, into a quote or a parameter.
   */
  lemma PlaceIsKept(ns: Nodes)
    requires Script(ns)
    ensures KeptAll(PrintAll(ns), 0, InCode, ns) <==> Followed(ns).Some?
  {
    var text := PrintAll(ns);
    assert text[0..|text|] == text;
    AllKept(text, 0, |text|, [BOTTOM], [], InCode, ns, '\n', None);
  }
}
