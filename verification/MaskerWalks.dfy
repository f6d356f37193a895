/**
 Substitutions that end where the tree ends them. Walking the parentheses and the words case and esac of
 a substitution's own body says whether it does: that is enough for the masker to be right, and where
 the substitution stands in a quote or in a parameter it is also necessary.
 */
module MaskerWalks {
  import opened Options
  import opened Text
  import opened Masker
  import opened MaskerPath
  import opened ShellTrees
  import opened MaskerCorrect
  import opened MaskerPlace

  /** A sealed node changes nothing but the counts of the frame it stands in, and those as it is walked. */
  lemma {:induction false} SealedNode(p: Place, n: Node, fs: seq<Frame>)
    requires Sound(fs) && Fits(Top(fs), p) && Sealed(n)
    ensures !p.InCode? ==> Follow(p, n, fs) == Some(fs)
    ensures p.InCode? && Own(n, Top(fs)).Some? ==> Follow(p, n, fs) == Some(Replace(fs, Own(n, Top(fs)).value))
    decreases n, 1
  {
    assert Replace(fs, Top(fs)) == fs;
    match n
    case Double(b) =>
      SealedRow(InQuote, b, fs + [Quote]);
      assert Pop(fs + [Quote]) == fs;
    case Braces(b) =>
      SealedRow(Inside(p), b, fs + [Param(Inside(p).inQuote)]);
      assert Pop(fs + [Param(Inside(p).inQuote)]) == fs;
    case Subst(b) =>
      SealedRow(InCode, b, fs + [SUBSTITUTION]);
      assert Replace(fs + [SUBSTITUTION], SUBSTITUTION) == fs + [SUBSTITUTION];
      assert AfterClose(fs + [SUBSTITUTION]) == fs;
    case Paren(opens) => SealedParen(p, opens, fs);
    case _ =>
  }

  lemma SealedParen(p: Place, opens: bool, fs: seq<Frame>)
    requires Sound(fs) && Fits(Top(fs), p)
    ensures var n := Paren(opens);
      && (!p.InCode? ==> Follow(p, n, fs) == Some(fs))
      && (p.InCode? && Own(n, Top(fs)).Some? ==> Follow(p, n, fs) == Some(Replace(fs, Own(n, Top(fs)).value)))
  {
    assert Replace(fs, Top(fs)) == fs;
  }

  lemma {:induction false} SealedRow(p: Place, ns: Nodes, fs: seq<Frame>)
    requires Sound(fs) && Fits(Top(fs), p) && SealedAll(ns)
    ensures !p.InCode? ==> FollowAll(p, ns, fs) == Some(fs)
    ensures p.InCode? && OwnAll(ns, Top(fs)).Some? ==>
      FollowAll(p, ns, fs) == Some(Replace(fs, OwnAll(ns, Top(fs)).value))
    decreases ns, 0
  {
    match ns
    case Nil => assert Replace(fs, Top(fs)) == fs;
    case Cons(n, rest) =>
      SealedNode(p, n, fs);
      if !p.InCode? {
        SealedRow(p, rest, fs);
      } else if Own(n, Top(fs)).Some? {
        var f := Own(n, Top(fs)).value;
        var gs := Replace(fs, f);
        SealedRow(p, rest, gs);
        assert forall g: Frame :: Replace(gs, g) == Replace(fs, g);
      }
  }

  /** Nothing ends a frame that is not a substitution. */
  lemma {:induction false} BottomStays(ns: Nodes, f: Frame)
    requires f.Code? && !f.sub
    ensures OwnAll(ns, f).Some?
    decreases ns
  {
    match ns
    case Nil =>
    case Cons(n, rest) => BottomStays(rest, Own(n, f).value);
  }

  lemma SealedIsFollowed(ns: Nodes)
    requires SealedAll(ns)
    ensures Followed(ns).Some? && |Followed(ns).value| == 1
  {
    BottomStays(ns, BOTTOM);
    SealedRow(InCode, ns, [BOTTOM]);
  }

  /**
   For every tree in which each substitution, at any depth, is ended by its own parenthesis, masking its
   text is right, and reports no loss. Outside substitutions nothing is asked: a subshell may hold a
   case statement, and its patterns may end in any parenthesis.
   */
  lemma SealedIsRight(ns: Nodes)
    requires Script(ns) && SealedAll(ns)
    ensures MaskSpec(PrintAll(ns)) == Masked(ShownAll(InCode, ns), Fine)
  {
    SealedIsFollowed(ns);
    MaskIsRight(ns);
  }

  // ---- where it is necessary --------------------------------------------------------------------

  /** A substitution in a quote or a parameter that a parenthesis ends too soon loses the masker its place. */
  lemma {:induction false} EndsTooSoon(ns: Nodes, base: seq<Frame>, f: Frame)
    requires Sound(base) && !Top(base).Code? && f.Code? && SealedAll(ns) && OwnAll(ns, f) == None
    ensures FollowAll(InCode, ns, base + [f]) == None
    decreases ns
  {
    var fs := base + [f];
    var n, rest := ns.head, ns.tail;
    SealedNode(InCode, n, fs);
    match Own(n, f)
    case None => assert AfterClose(fs) == base;
    case Some(g) =>
      assert Replace(fs, g) == base + [g];
      EndsTooSoon(rest, base, g);
  }

  /** What the last parenthesis of a substitution does, when the walk comes to it with this frame. */
  lemma LastParen(p: Place, base: seq<Frame>, f: Frame)
    requires Sound(base) && Fits(Top(base), p) && !p.InCode? && f.Code? && f.sub
    ensures Landed(AfterClose(base + [f]), p).Some? <==> f == SUBSTITUTION
  {
    var fs := base + [f];
    assert f == SUBSTITUTION ==> AfterClose(fs) == base;
  }

  /**
   In a quote or a parameter, with the substitutions inside it sealed: a substitution is followed if and
   only if no parenthesis of its own before the last meets depth and case count zero, and the last does.
   */
  lemma SubstIff(p: Place, b: Nodes, fs: seq<Frame>)
    requires Sound(fs) && Fits(Top(fs), p) && !p.InCode? && SealedAll(b)
    ensures Follow(p, Subst(b), fs).Some? <==> Closed(b)
  {
    var gs := fs + [SUBSTITUTION];
    if OwnAll(b, SUBSTITUTION) == None {
      EndsTooSoon(b, fs, SUBSTITUTION);
    } else {
      var f := OwnAll(b, SUBSTITUTION).value;
      SealedRow(InCode, b, gs);
      assert Replace(gs, f) == fs + [f];
      LastParen(p, fs, f);
    }
  }

  /**
   The same, of the masker itself: coming to such a substitution in the place of the tree, it keeps its
   place to the end of every part of it, and of the whole, if and only if the substitution is closed.
   */
  lemma SubstKeepsPlaceIff(text: string, i: nat, fs: seq<Frame>, ws: seq<Heredoc>, p: Place, b: Nodes, before: char)
    requires Ready(text, i, fs, p, before) && Valid(p, Subst(b), ws, before) && At(text, i, Print(Subst(b)))
    requires !p.InCode? && SealedAll(b) && SpotAt(text, START, i) == Some(Spot(i, fs, ws))
    ensures Kept(text, i, p, Subst(b)) <==> Closed(b)
  {
    SubstKept(text, i, i + |Print(Subst(b))|, fs, ws, p, Subst(b), before);
    SubstIff(p, b, fs);
  }
}
