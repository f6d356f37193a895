/**
 The masker's way through a text: where its loop stands, turn by turn, and what it writes between two
 such spots. `SpotAt` is the spot at an offset, if the loop stops there; `Leads` says that from one spot
 it comes to another, writing this.
 */
module MaskerPath {
  import opened Options
  import opened Text
  import opened Masker

  const START := Spot(0, [BOTTOM], [])

  function StepAt(text: string, at: Spot): (m: Move)
    requires at.i < |text| && Sound(at.frames)
    ensures m.Go? ==> at.i < m.next && Sound(m.frames)
    ensures m.Go? && m.paint == Join ==> m.next == at.i + 2 <= |text|
  {
    Step(text, at.i, at.frames, at.waiting)
  }

  /** Where a turn comes to. A turn that passes the end of the text comes to the end. */
  function Onward(text: string, m: Move): Spot
    requires m.Go?
  {
    Spot(Min(m.next, |text|), m.frames, m.waiting)
  }

  // ---- the spots the loop visits ----------------------------------------------------------------

  /** The spot the loop comes to at offset e, from at, if it stops there. */
  function SpotAt(text: string, at: Spot, e: nat): (r: Option<Spot>)
    requires Sound(at.frames)
    ensures r.Some? ==> r.value.i == e && Sound(r.value.frames)
    decreases |text| - at.i, 2
  {
    if at.i >= e then (if at.i == e then Some(at) else None)
    else if at.i >= |text| then None
    else SpotOn(text, at, e)
  }

  function SpotOn(text: string, at: Spot, e: nat): (r: Option<Spot>)
    requires at.i < |text| && Sound(at.frames)
    ensures r.Some? ==> r.value.i == e && Sound(r.value.frames)
    decreases |text| - at.i, 1
  {
    SpotPast(text, at.i, StepAt(text, at), e)
  }

  function SpotPast(text: string, i: nat, m: Move, e: nat): (r: Option<Spot>)
    requires i < |text| && (m.Go? ==> i < m.next && Sound(m.frames))
    ensures r.Some? ==> r.value.i == e && Sound(r.value.frames)
    decreases |text| - i, 0
  {
    if m.Lost? then None else SpotAt(text, Onward(text, m), e)
  }

  lemma SpotUnfolds(text: string, at: Spot, e: nat)
    requires at.i < e && at.i < |text| && Sound(at.frames)
    ensures var m := StepAt(text, at);
      SpotAt(text, at, e) == if m.Lost? then None else SpotAt(text, Onward(text, m), e)
  {
    assert SpotAt(text, at, e) == SpotOn(text, at, e);
    assert SpotOn(text, at, e) == SpotPast(text, at.i, StepAt(text, at), e);
  }

  /** What is visited from a spot that is visited is visited. */
  lemma {:induction false} SpotThrough(text: string, a: Spot, b: Spot, e: nat)
    requires Sound(a.frames) && SpotAt(text, a, b.i) == Some(b) && b.i <= e
    ensures SpotAt(text, a, e) == SpotAt(text, b, e)
    decreases |text| - a.i
  {
    if a.i < b.i {
      SpotUnfolds(text, a, b.i);
      SpotUnfolds(text, a, e);
      SpotThrough(text, Onward(text, StepAt(text, a)), b, e);
    }
  }

  // ---- from one spot to another -----------------------------------------------------------------

  /** What the loop writes between a and b, if it comes from a to b. */
  function Between(text: string, a: Spot, b: Spot): Option<string>
    decreases |text| - a.i, 2
  {
    if !Sound(a.frames) then None
    else if a.i < b.i then BetweenOn(text, a, b)
    else if a == b then Some("")
    else None
  }

  function BetweenOn(text: string, a: Spot, b: Spot): Option<string>
    requires Sound(a.frames)
    decreases |text| - a.i, 1
  {
    if a.i >= |text| then None else BetweenPast(text, a.i, StepAt(text, a), b)
  }

  function BetweenPast(text: string, i: nat, m: Move, b: Spot): Option<string>
    requires i < |text|
    requires m.Go? ==> i < m.next && Sound(m.frames) && (m.paint == Join ==> m.next == i + 2 <= |text|)
    decreases |text| - i, 0
  {
    if m.Lost? then None else
    match Between(text, Onward(text, m), b)
    case None => None
    case Some(y) => Some(Written(text, i, m) + y)
  }

  /** From a the loop comes to b, and writes x between them. */
  predicate Leads(text: string, a: Spot, x: string, b: Spot) {
    Between(text, a, b) == Some(x)
  }

  lemma Unfolded(text: string, a: Spot, b: Spot)
    requires a.i < b.i && a.i < |text| && Sound(a.frames)
    ensures Between(text, a, b) == BetweenPast(text, a.i, StepAt(text, a), b)
  {
    assert Between(text, a, b) == BetweenOn(text, a, b);
  }

  lemma Stay(text: string, a: Spot)
    requires Sound(a.frames)
    ensures Leads(text, a, "", a)
  {
  }

  lemma Stands(text: string, a: Spot, x: string, b: Spot)
    requires Leads(text, a, x, b)
    ensures Sound(a.frames) && a.i <= b.i && (a.i < b.i ==> a.i < |text|)
  {
    assert a.i < b.i && Sound(a.frames) ==> Between(text, a, b) == BetweenOn(text, a, b);
  }

  /** A way that is not empty begins with a turn. */
  lemma FirstTurn(text: string, a: Spot, x: string, b: Spot) returns (y: string)
    requires Leads(text, a, x, b) && a.i < b.i
    ensures a.i < |text| && Sound(a.frames) && StepAt(text, a).Go?
    ensures x == Written(text, a.i, StepAt(text, a)) + y && Leads(text, Onward(text, StepAt(text, a)), y, b)
  {
    Stands(text, a, x, b);
    Unfolded(text, a, b);
    var m := StepAt(text, a);
    assert BetweenPast(text, a.i, m, b).Some?;
    y := Between(text, Onward(text, m), b).value;
  }

  /** One turn, and then a way. */
  lemma TurnFirst(text: string, a: Spot, y: string, b: Spot)
    requires a.i < |text| && Sound(a.frames) && StepAt(text, a).Go? && Leads(text, Onward(text, StepAt(text, a)), y, b)
    ensures a.i < b.i && Leads(text, a, Written(text, a.i, StepAt(text, a)) + y, b)
  {
    Stands(text, Onward(text, StepAt(text, a)), y, b);
    Unfolded(text, a, b);
  }

  /** One turn. */
  lemma Moved(text: string, a: Spot, b: Spot)
    requires a.i < |text| && Sound(a.frames) && StepAt(text, a).Go? && Onward(text, StepAt(text, a)) == b
    ensures Sound(b.frames) && Leads(text, a, Written(text, a.i, StepAt(text, a)), b)
  {
    var x := Written(text, a.i, StepAt(text, a));
    Stay(text, b);
    TurnFirst(text, a, "", b);
    assert x + "" == x;
  }

  /** One turn, over the characters p. */
  lemma Turned(text: string, a: Spot, p: string, b: Spot, paint: Paint)
    requires p != "" && At(text, a.i, p) && b.i == a.i + |p| && Sound(a.frames)
    requires StepAt(text, a) == Go(b.i, b.frames, b.waiting, paint)
    ensures Sound(b.frames) && (paint == Join ==> |p| == 2) && Leads(text, a, Painted(p, paint), b)
  {
    Moved(text, a, b);
    assert text[a.i..a.i + |p|] == p;
  }

  /** One turn, over all the characters that are left, to the end or past it. */
  lemma TurnedPast(text: string, a: Spot, e: nat, p: string, b: Spot, paint: Paint)
    requires p != "" && At(text, a.i, p) && b.i == a.i + |p| == |text| <= e && Sound(a.frames) && paint != Join
    requires StepAt(text, a) == Go(e, b.frames, b.waiting, paint)
    ensures Sound(b.frames) && Leads(text, a, Painted(p, paint), b)
  {
    Moved(text, a, b);
    assert text[a.i..|text|] == p;
  }

  lemma {:induction false} Chain(text: string, a: Spot, x: string, b: Spot, y: string, c: Spot)
    requires Leads(text, a, x, b) && Leads(text, b, y, c)
    ensures Leads(text, a, x + y, c)
    decreases |text| - a.i
  {
    Stands(text, a, x, b);
    if a.i < b.i {
      var z := FirstTurn(text, a, x, b);
      var m := StepAt(text, a);
      Chain(text, Onward(text, m), z, b, y, c);
      TurnFirst(text, a, z + y, c);
      var w := Written(text, a.i, m);
      assert w + (z + y) == (w + z) + y;
    } else {
      assert x + y == y;
    }
  }

  lemma Chain3(text: string, a: Spot, x: string, b: Spot, y: string, c: Spot, z: string, d: Spot)
    requires Leads(text, a, x, b) && Leads(text, b, y, c) && Leads(text, c, z, d)
    ensures Leads(text, a, x + y + z, d)
  {
    Chain(text, a, x, b, y, c);
    Chain(text, a, x + y, c, z, d);
  }

  /** One turn, over the characters p, and then a way. */
  lemma TurnThen(text: string, a: Spot, p: string, b: Spot, paint: Paint, y: string, c: Spot)
    requires p != "" && At(text, a.i, p) && b.i == a.i + |p| && Sound(a.frames) && paint != Join
    requires StepAt(text, a) == Go(b.i, b.frames, b.waiting, paint) && Leads(text, b, y, c)
    ensures Leads(text, a, Painted(p, paint) + y, c)
  {
    Turned(text, a, p, b, paint);
    Chain(text, a, Painted(p, paint), b, y, c);
  }

  /** Past the end nothing is left to mask. */
  lemma PastEnd(text: string, m: Move)
    requires m.Go? && Sound(m.frames)
    ensures var b := Onward(text, m);
      MaskFrom(text, m.next, m.frames, m.waiting) == MaskFrom(text, b.i, b.frames, b.waiting)
  {
    if m.next > |text| {
      Ends(text, m.next, m.frames, m.waiting);
      Ends(text, |text|, m.frames, m.waiting);
    }
  }

  /** A way is what the masker writes on it, and then what it writes from its end. */
  lemma {:induction false} LeadsMasks(text: string, a: Spot, x: string, b: Spot)
    requires Leads(text, a, x, b) && Sound(b.frames)
    ensures MaskFrom(text, a.i, a.frames, a.waiting) == Prepend(x, MaskFrom(text, b.i, b.frames, b.waiting))
    decreases |text| - a.i
  {
    Stands(text, a, x, b);
    var end := MaskFrom(text, b.i, b.frames, b.waiting);
    if a.i < b.i {
      var y := FirstTurn(text, a, x, b);
      Unfolds(text, a.i, a.frames, a.waiting);
      var m := StepAt(text, a);
      PastEnd(text, m);
      LeadsMasks(text, Onward(text, m), y, b);
      assert Written(text, a.i, m) + (y + end.text) == x + end.text;
    } else {
      assert "" + end.text == end.text;
    }
  }

  /** The end of a way is visited, and sound. */
  lemma {:induction false} LeadsThere(text: string, a: Spot, x: string, b: Spot)
    requires Leads(text, a, x, b)
    ensures Sound(a.frames) && SpotAt(text, a, b.i) == Some(b) && Sound(b.frames)
    decreases |text| - a.i
  {
    Stands(text, a, x, b);
    if a.i < b.i {
      var y := FirstTurn(text, a, x, b);
      SpotUnfolds(text, a, b.i);
      LeadsThere(text, Onward(text, StepAt(text, a)), y, b);
    }
  }

  /** So is the end of a way from a visited spot. */
  lemma Visited(text: string, s: Spot, a: Spot, x: string, b: Spot)
    requires Sound(s.frames) && SpotAt(text, s, a.i) == Some(a) && Leads(text, a, x, b)
    ensures SpotAt(text, s, b.i) == Some(b)
  {
    Stands(text, a, x, b);
    LeadsThere(text, a, x, b);
    SpotThrough(text, s, a, b.i);
  }
}
