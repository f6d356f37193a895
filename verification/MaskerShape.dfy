/** What masking any text at all can and cannot change. */
module MaskerShape {
  import opened Options
  import opened Text
  import opened Masker
  import opened MaskerPath

  /** The loop stops at k, in live code, at a backslash and a newline. */
  predicate JoinedAt(text: string, k: nat) {
    match SpotAt(text, START, k)
    case None => false
    case Some(s) => Top(s.frames).Code? && Two(text, k, '\\', '\n')
  }

  /** The character at k belongs to a line continued in live code. */
  predicate Continued(text: string, k: nat) {
    JoinedAt(text, k) || (k > 0 && JoinedAt(text, k - 1))
  }

  /** What stands at k in the masked text. */
  predicate Shaped(text: string, k: nat, c: char)
    requires k < |text|
  {
    if Continued(text, k) then c == ' ' else c == text[k] || (c == FILL && text[k] != '\n')
  }

  /** What stands from i on. */
  predicate ShapedAll(text: string, i: nat, w: string) {
    i + |w| <= |text| && forall d :: 0 <= d < |w| ==> Shaped(text, i + d, w[d])
  }

  lemma ShapedSplice(text: string, i: nat, v: string, w: string)
    requires ShapedAll(text, i, v) && ShapedAll(text, i + |v|, w)
    ensures ShapedAll(text, i, v + w)
  {
    forall d | 0 <= d < |v + w| ensures Shaped(text, i + d, (v + w)[d]) {
      if d >= |v| {
        assert i + d == i + |v| + (d - |v|);
      }
    }
  }

  /** In live code, a continued line is what the masker makes of a backslash and a newline, and nothing else is. */
  lemma JoinsThere(text: string, at: Spot)
    requires at.i < |text| && Sound(at.frames)
    ensures var m := StepAt(text, at);
      Top(at.frames).Code? && Two(text, at.i, '\\', '\n') <==> m.Go? && m.paint == Join
  {
  }

  /** Between the spots it stops at, the loop continues no line. */
  lemma NoneInside(text: string, at: Spot, k: nat)
    requires Sound(at.frames) && SpotAt(text, START, at.i) == Some(at) && at.i < |text| && at.i < k
    requires var m := StepAt(text, at); m.Lost? || k < m.next
    ensures !JoinedAt(text, k)
  {
    SpotThrough(text, START, at, k);
    SpotUnfolds(text, at, k);
  }

  /** No line is continued by the character before a spot. */
  lemma NoneBefore(text: string, at: Spot)
    requires Sound(at.frames) && SpotAt(text, START, at.i) == Some(at) && at.i > 0
    ensures !JoinedAt(text, at.i - 1)
  {
    if JoinedAt(text, at.i - 1) {
      var b := SpotAt(text, START, at.i - 1).value;
      JoinsThere(text, b);
      SpotThrough(text, START, b, at.i);
      SpotUnfolds(text, b, at.i);
      assert false;
    }
  }

  /** What one turn writes. */
  lemma WrittenShaped(text: string, at: Spot)
    requires at.i < |text| && Sound(at.frames) && SpotAt(text, START, at.i) == Some(at) && StepAt(text, at).Go?
    ensures ShapedAll(text, at.i, Written(text, at.i, StepAt(text, at)))
  {
    var m := StepAt(text, at);
    JoinsThere(text, at);
    if m.paint == Join {
      JoinShaped(text, at.i);
    } else {
      var j := Min(m.next, |text|);
      forall k | at.i <= k < j ensures !Continued(text, k) {
        NotContinued(text, at, k);
      }
      PaintShaped(text, at.i, j, m.paint);
    }
  }

  lemma JoinShaped(text: string, i: nat)
    requires i + 2 <= |text| && JoinedAt(text, i)
    ensures ShapedAll(text, i, "  ")
  {
    assert Continued(text, i) && Continued(text, i + 1);
  }

  lemma PaintShaped(text: string, i: nat, j: nat, paint: Paint)
    requires i <= j <= |text| && paint != Join && forall k :: i <= k < j ==> !Continued(text, k)
    ensures ShapedAll(text, i, Painted(text[i..j], paint))
  {
    var w := text[i..j];
    forall d | 0 <= d < |w| ensures Shaped(text, i + d, Painted(w, paint)[d]) {
      PaintedAt(w, paint, d);
      assert w[d] == text[i + d] && !Continued(text, i + d);
    }
  }

  lemma PaintedAt(w: string, paint: Paint, d: nat)
    requires d < |w| && (paint == Join ==> |w| == 2)
    ensures Painted(w, paint)[d] == match paint case Keep => w[d] case Blank => Covered(w[d]) case Join => ' '
  {
  }

  lemma NotContinued(text: string, at: Spot, k: nat)
    requires at.i < |text| && Sound(at.frames) && SpotAt(text, START, at.i) == Some(at) && at.i <= k
    requires var m := StepAt(text, at); m.Lost? || (k < m.next && m.paint != Join)
    ensures !Continued(text, k)
  {
    JoinsThere(text, at);
    if k > at.i {
      NoneInside(text, at, k);
      if k - 1 > at.i {
        NoneInside(text, at, k - 1);
      }
    } else if k > 0 {
      NoneBefore(text, at);
    }
  }

  lemma {:induction false} ShapedFrom(text: string, at: Spot)
    requires Sound(at.frames) && at.i <= |text| && SpotAt(text, START, at.i) == Some(at)
    ensures var m := MaskFrom(text, at.i, at.frames, at.waiting).text;
      |m| == |text| - at.i && ShapedAll(text, at.i, m)
    decreases |text| - at.i, 1
  {
    if at.i == |text| {
      Ends(text, at.i, at.frames, at.waiting);
    } else {
      var all := MaskFrom(text, at.i, at.frames, at.waiting).text;
      Unfolds(text, at.i, at.frames, at.waiting);
      if StepAt(text, at).Lost? {
        assert all == text[at.i..];
        forall d | 0 <= d < |all| ensures Shaped(text, at.i + d, all[d]) {
          NotContinued(text, at, at.i + d);
        }
      } else {
        WrittenShaped(text, at);
        var rest := ShapedOn(text, at);
        ShapedSplice(text, at.i, Written(text, at.i, StepAt(text, at)), rest);
      }
    }
  }

  lemma ShapedOn(text: string, at: Spot) returns (rest: string)
    requires Sound(at.frames) && at.i < |text| && SpotAt(text, START, at.i) == Some(at) && StepAt(text, at).Go?
    ensures var m := StepAt(text, at); var j := Min(m.next, |text|);
      && rest == MaskFrom(text, m.next, m.frames, m.waiting).text
      && |rest| == |text| - j && ShapedAll(text, j, rest)
    decreases |text| - at.i, 0
  {
    var m := StepAt(text, at);
    rest := MaskFrom(text, m.next, m.frames, m.waiting).text;
    if m.next <= |text| {
      SpotThrough(text, START, at, m.next);
      SpotUnfolds(text, at, m.next);
      ShapedFrom(text, Onward(text, m));
    } else {
      Ends(text, m.next, m.frames, m.waiting);
    }
  }

  /**
   For every text: the masked text is as long. A backslash and a newline that the loop meets in live code
   become two spaces, and nothing else becomes a space; every other newline is kept, and every other
   character is kept or an underscore. So offsets and line ends mean what they meant.
   */
  lemma MaskShape(text: string)
    ensures var m := MaskSpec(text).text;
      && |m| == |text|
      && (forall k :: 0 <= k < |text| ==> Shaped(text, k, m[k]))
      && (forall k :: 0 <= k < |text| && text[k] == '\n' && !Continued(text, k) ==> m[k] == '\n')
      && (forall k :: 0 <= k < |text| && m[k] == ' ' && text[k] != ' ' ==> Continued(text, k))
      && (forall k :: 0 <= k < |text| && m[k] != FILL && m[k] != ' ' ==> m[k] == text[k])
  {
    ShapedFrom(text, START);
    var m := MaskSpec(text).text;
    forall k | 0 <= k < |text| ensures Shaped(text, k, m[k]) {
      assert Shaped(text, 0 + k, m[k]);
    }
  }

  /** So every newline of a text is kept if and only if the loop meets no continued line in live code. */
  lemma NewlinesKeptIff(text: string)
    ensures var m := MaskSpec(text).text;
      (forall k :: 0 <= k < |text| && text[k] == '\n' ==> k < |m| && m[k] == '\n')
      <==> (forall k: nat :: !JoinedAt(text, k))
  {
    MaskShape(text);
    var m := MaskSpec(text).text;
    if k: nat :| JoinedAt(text, k) {
      assert Continued(text, k + 1) && Shaped(text, k + 1, m[k + 1]);
      assert text[k + 1] == '\n' && m[k + 1] == ' ';
    }
  }
}
