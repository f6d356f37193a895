/**
 Secret redaction, as redactFinding of internal/runner/runner.go does it: every occurrence of a key
 in the texts of a Finding gives way to a mark. The proofs are about the occurrences that are left.
 */
module Redact {

  const MARK := "***"

  /** strings.ReplaceAll with the mark: left to right, without overlap. */
  function ReplaceAll(s: string, key: string): string
    requires key != ""
    decreases |s|
  {
    if |s| < |key| then s
    else if s[..|key|] == key then MARK + ReplaceAll(s[|key|..], key)
    else [s[0]] + ReplaceAll(s[1..], key)
  }

  predicate OccursAt(key: string, s: string, i: nat) {
    i + |key| <= |s| && s[i..i + |key|] == key
  }

  ghost predicate Occurs(key: string, s: string) {
    exists i: nat :: OccursAt(key, s, i)
  }

  /**
   A key the mark cannot bring back: it neither begins nor ends with a star, and holds no mark. This
   is exactly when redaction is complete for every text.
   */
  ghost predicate Safe(key: string) {
    key != "" && key[0] != '*' && key[|key| - 1] != '*' && !Occurs(MARK, key)
  }

  // ---- occurrences ------------------------------------------------------------------------------

  lemma CharOf(key: string, s: string, i: nat, j: nat)
    requires j < |key|
    ensures OccursAt(key, s, i) ==> s[i + j] == key[j]
  {
    if OccursAt(key, s, i) {
      assert s[i..i + |key|][j] == s[i + j];
    }
  }

  lemma OccursLater(key: string, s: string, d: nat, i: nat)
    requires d <= |s|
    ensures OccursAt(key, s[d..], i) <==> OccursAt(key, s, d + i)
  {
    if i + |key| <= |s| - d {
      assert s[d..][i..i + |key|] == s[d + i..d + i + |key|];
    }
  }

  lemma OccursWithin(inner: string, key: string, m: nat, s: string, i: nat)
    requires OccursAt(inner, key, m)
    ensures OccursAt(key, s, i) ==> OccursAt(inner, s, i + m)
  {
    if OccursAt(key, s, i) {
      var t := s[i + m..i + m + |inner|];
      forall j | 0 <= j < |inner| ensures t[j] == inner[j] {
        CharOf(key, s, i, m + j);
        CharOf(inner, key, m, j);
      }
    }
  }

  lemma NotOccursLater(key: string, s: string, d: nat)
    requires d <= |s| && !Occurs(key, s)
    ensures !Occurs(key, s[d..])
  {
    forall i: nat ensures !OccursAt(key, s[d..], i) {
      OccursLater(key, s, d, i);
    }
  }

  lemma MarkStarts(w: string, r: string)
    requires MARK <= r && w <= r && w != "" && w[|w| - 1] != '*'
    ensures Occurs(MARK, w)
  {
    assert r[..3] == MARK;
    assert r[0] == r[..3][0] && r[1] == r[..3][1] && r[2] == r[..3][2];
    assert w[|w| - 1] == r[|w| - 1];
    assert |w| >= 3 && w[..3] == r[..3];
    assert OccursAt(MARK, w, 0);
  }

  /** A start of the redacted text that holds no mark and does not end in a star was there before. */
  lemma {:induction false} StartWasThere(w: string, s: string, key: string)
    requires key != "" && !Occurs(MARK, w) && (w != "" ==> w[|w| - 1] != '*')
    ensures w <= ReplaceAll(s, key) ==> w <= s
    decreases |s|
  {
    var r := ReplaceAll(s, key);
    if w != "" && |s| >= |key| && w <= r {
      if s[..|key|] == key {
        MarkStarts(w, r);
      } else {
        NotOccursLater(MARK, w, 1);
        StartWasThere(w[1..], s[1..], key);
        assert r == [s[0]] + ReplaceAll(s[1..], key);
        assert r[1..] == ReplaceAll(s[1..], key) && w[1..] <= r[1..];
        assert w == [w[0]] + w[1..] && s == [s[0]] + s[1..];
      }
    }
  }

  lemma NotAtStart(k: string, s: string, key: string)
    requires key != "" && Safe(k) && !OccursAt(k, s, 0)
    ensures !OccursAt(k, ReplaceAll(s, key), 0)
  {
    StartWasThere(k, s, key);
    AtStart(k, ReplaceAll(s, key));
    AtStart(k, s);
  }

  lemma AtStart(k: string, s: string)
    ensures OccursAt(k, s, 0) <==> k <= s
  {
  }

  /** Replacing a key leaves no occurrence of it, and brings no other safe key about. */
  lemma {:induction false} NoneIsLeft(k: string, s: string, key: string)
    requires key != "" && Safe(k) && (k == key || !Occurs(k, s))
    ensures !Occurs(k, ReplaceAll(s, key))
    decreases |s|
  {
    if |s| >= |key| {
      var found := s[..|key|] == key;
      var from, to := if found then |key| else 1, if found then 3 else 1;
      var rest, r := s[from..], ReplaceAll(s, key);
      if k != key {
        NotOccursLater(k, s, from);
      }
      NoneIsLeft(k, rest, key);
      assert r[to..] == ReplaceAll(rest, key);
      forall i: nat | i < to ensures !OccursAt(k, r, i) {
        if found {
          CharOf(k, r, i, 0);
          assert r[i] == '*';
        } else {
          NotAtStart(k, s, key);
        }
      }
      NoneLater(k, r, to);
    }
  }

  /** What occurs neither near the start nor after it does not occur. */
  lemma NoneLater(k: string, r: string, d: nat)
    requires d <= |r| && !Occurs(k, r[d..]) && forall i: nat :: i < d ==> !OccursAt(k, r, i)
    ensures !Occurs(k, r)
  {
    forall i: nat | d <= i ensures !OccursAt(k, r, i) {
      OccursLater(k, r, d, i - d);
    }
  }

  /** A key that does not occur changes nothing. */
  lemma {:induction false} AbsentChangesNothing(s: string, key: string)
    requires key != "" && !Occurs(key, s)
    ensures ReplaceAll(s, key) == s
    decreases |s|
  {
    if |s| >= |key| {
      assert !OccursAt(key, s, 0);
      NotOccursLater(key, s, 1);
      AbsentChangesNothing(s[1..], key);
    }
  }

  // ---- which keys redaction is complete for ------------------------------------------------------

  lemma Past(s: string, key: string)
    requires key != "" && s != "" && !OccursAt(key, s, 0)
    ensures ReplaceAll(s, key) == [s[0]] + ReplaceAll(s[1..], key)
  {
    if |s| < |key| {
      assert s == [s[0]] + s[1..];
    }
  }

  lemma Here(s: string, key: string)
    requires key != "" && OccursAt(key, s, 0)
    ensures ReplaceAll(s, key) == MARK + ReplaceAll(s[|key|..], key)
  {
  }

  lemma Regroup(c: string, a: string, b: string)
    ensures c + (a + b) == (c + a) + b
  {
  }

  /** The first occurrence is the first replaced. */
  lemma {:induction false} FirstAt(s: string, key: string, p: nat)
    requires key != "" && OccursAt(key, s, p) && forall i: nat :: i < p ==> !OccursAt(key, s, i)
    ensures ReplaceAll(s, key) == s[..p] + (MARK + ReplaceAll(s[p + |key|..], key))
    decreases p
  {
    var tail := MARK + ReplaceAll(s[p + |key|..], key);
    if p == 0 {
      Here(s, key);
      assert s[..0] == "";
    } else {
      var t := s[1..];
      LaterFirst(s, key, p);
      FirstAt(t, key, p - 1);
      assert t[p - 1 + |key|..] == s[p + |key|..];
      Past(s, key);
      Head(s, p, tail);
    }
  }

  lemma Head(s: string, p: nat, tail: string)
    requires 0 < p <= |s|
    ensures [s[0]] + (s[1..][..p - 1] + tail) == s[..p] + tail
  {
    Regroup([s[0]], s[1..][..p - 1], tail);
    assert s[..p] == [s[0]] + s[1..][..p - 1];
  }

  lemma LaterFirst(s: string, key: string, p: nat)
    requires p > 0 && OccursAt(key, s, p) && forall i: nat :: i < p ==> !OccursAt(key, s, i)
    ensures OccursAt(key, s[1..], p - 1) && forall i: nat :: i < p - 1 ==> !OccursAt(key, s[1..], i)
  {
    OccursLater(key, s, 1, p - 1);
    forall i: nat | i < p - 1 ensures !OccursAt(key, s[1..], i) {
      OccursLater(key, s, 1, i);
    }
  }

  lemma LeadingStarLeaks(key: string) returns (s: string)
    requires key != "" && key[0] == '*'
    ensures Occurs(key, ReplaceAll(s, key))
  {
    var r := key[1..];
    s := key + r;
    assert s[..|key|] == key && s[|key|..] == r;
    assert ReplaceAll(s, key) == MARK + r;
    assert (MARK + r)[2..2 + |key|] == key;
    assert OccursAt(key, ReplaceAll(s, key), 2);
  }

  lemma TrailingStarLeaks(key: string) returns (s: string)
    requires key != "" && key[0] != '*' && key[|key| - 1] == '*'
    ensures Occurs(key, ReplaceAll(s, key))
  {
    var m := |key| - 1;
    var r := key[..m];
    s := r + key;
    forall p: nat | p < m ensures !OccursAt(key, s, p) {
      CharOf(key, s, p, 0);
      CharOf(key, s, p, m);
      assert s[p] == key[p] == s[p + m];
    }
    assert s[m..m + |key|] == key;
    FirstAt(s, key, m);
    assert s[m + |key|..] == "" && s[..m] == r;
    assert ReplaceAll(s, key) == r + (MARK + "") == r + MARK;
    assert (r + MARK)[0..|key|] == key;
    assert OccursAt(key, ReplaceAll(s, key), 0);
  }

  lemma FirstMark(key: string) returns (m: nat)
    requires Occurs(MARK, key)
    ensures OccursAt(MARK, key, m) && forall i: nat :: i < m ==> !OccursAt(MARK, key, i)
  {
    m := 0;
    var w: nat :| OccursAt(MARK, key, w);
    while !OccursAt(MARK, key, m)
      invariant m <= w && forall i: nat :: i < m ==> !OccursAt(MARK, key, i)
      decreases w - m
    {
      m := m + 1;
    }
  }

  lemma InnerMarkLeaks(key: string) returns (s: string)
    requires key != "" && Occurs(MARK, key)
    ensures Occurs(key, ReplaceAll(s, key))
  {
    var m := FirstMark(key);
    var a, b := key[..m], key[m + 3..];
    s := a + key + b;
    NoneEarlier(key, m, s);
    assert s[m..m + |key|] == key;
    FirstAt(s, key, m);
    assert s[..m] == a && s[m + |key|..] == b;
    ShortStays(b, key);
    assert key == a + (MARK + b);
    assert OccursAt(key, ReplaceAll(s, key), 0);
  }

  lemma ShortStays(b: string, key: string)
    requires |b| < |key|
    ensures ReplaceAll(b, key) == b
  {
  }

  lemma NoneEarlier(key: string, m: nat, s: string)
    requires OccursAt(MARK, key, m) && forall i: nat :: i < m ==> !OccursAt(MARK, key, i)
    requires s == key[..m] + key + key[m + 3..]
    ensures forall p: nat :: p < m ==> !OccursAt(key, s, p)
  {
    forall p: nat | p < m ensures !OccursAt(key, s, p) {
      OccursWithin(MARK, key, m, s, p);
      assert s[p + m..p + m + 3] == key[p..p + 3];
      assert !OccursAt(MARK, key, p);
    }
  }

  /** A text that an unsafe key survives in. */
  lemma Leak(key: string) returns (s: string)
    requires key != "" && !Safe(key)
    ensures Occurs(key, ReplaceAll(s, key))
  {
    if key[0] == '*' {
      s := LeadingStarLeaks(key);
    } else if key[|key| - 1] == '*' {
      s := TrailingStarLeaks(key);
    } else {
      s := InnerMarkLeaks(key);
    }
  }

  ghost predicate Complete(s: string, key: string)
    requires key != ""
  {
    !Occurs(key, ReplaceAll(s, key))
  }

  /**
   Redaction of a key is complete for every text exactly when the key is safe: nothing else about the
   key, or the text, matters.
   */
  lemma CompleteIffSafe(key: string)
    requires key != ""
    ensures (forall s :: Complete(s, key)) <==> Safe(key)
  {
    if Safe(key) {
      forall s ensures Complete(s, key) {
        NoneIsLeft(key, s, key);
      }
    } else {
      var s := Leak(key);
      assert !Complete(s, key);
    }
  }

  /** A key with no star in it is safe. */
  lemma StarlessIsSafe(key: string)
    requires key != "" && forall i :: 0 <= i < |key| ==> key[i] != '*'
    ensures Safe(key)
  {
    forall i: nat ensures !OccursAt(MARK, key, i) {
      CharOf(MARK, key, i, 0);
    }
  }

  // ---- findings ---------------------------------------------------------------------------------

  datatype Finding = Finding(
    scenario: string, step: string, attempt: int,
    expectStatus: int, expectHeader: map<string, string>,
    gotStatus: int, gotHeaders: map<string, string>,
    detail: string, eventSource: string, eventType: string,
    kind: string, asked: string, got: string)

  /** One pass over the headers, in whatever order the map is ranged over: later names win. */
  ghost predicate HeadersRedacted(h: map<string, string>, key: string, g: map<string, string>)
    requires key != ""
  {
    && (forall n :: n in h ==> ReplaceAll(n, key) in g)
    && (forall n :: n in g ==> CameFrom(h, key, n, g[n]))
  }

  ghost predicate CameFrom(h: map<string, string>, key: string, name: string, value: string)
    requires key != ""
  {
    exists n :: n in h && ReplaceAll(n, key) == name && ReplaceAll(h[n], key) == value
  }

  ghost predicate RedactedOnce(f: Finding, key: string, g: Finding) {
    if key == "" then g == f
    else
      && g == f.(detail := ReplaceAll(f.detail, key), asked := ReplaceAll(f.asked, key),
                 got := ReplaceAll(f.got, key), gotHeaders := g.gotHeaders)
      && HeadersRedacted(f.gotHeaders, key, g.gotHeaders)
  }

  /** g is f with each of the keys redacted in turn. */
  ghost predicate Redacted(f: Finding, keys: seq<string>, g: Finding)
    decreases |keys|
  {
    if keys == [] then g == f
    else exists m :: RedactedOnce(f, keys[0], m) && Redacted(m, keys[1..], g)
  }

  lemma {:induction false} RedactedMore(f: Finding, keys: seq<string>, g: Finding, key: string, h: Finding)
    requires Redacted(f, keys, g) && RedactedOnce(g, key, h)
    ensures Redacted(f, keys + [key], h)
    decreases |keys|
  {
    if keys == [] {
      assert Redacted(h, [], h) && (keys + [key])[1..] == [];
      assert RedactedOnce(f, (keys + [key])[0], h);
    } else {
      var m :| RedactedOnce(f, keys[0], m) && Redacted(m, keys[1..], g);
      RedactedMore(m, keys[1..], g, key, h);
      assert (keys + [key])[1..] == keys[1..] + [key];
    }
  }

  class FindingRef {
    var value: Finding

    constructor (f: Finding)
      ensures value == f
    {
      value := f;
    }

    /** The function redactFinding. */
    method Redact(keys: seq<string>)
      modifies this
      ensures Redacted(old(value), keys, value)
    {
      assert keys[..0] == [];
      for n := 0 to |keys|
        invariant Redacted(old(value), keys[..n], value)
      {
        var key := keys[n];
        ghost var before := value;
        assert keys[..n + 1] == keys[..n] + [key];
        if key != "" {
          var clean := RedactHeaders(value.gotHeaders, key);
          value := value.(
            detail := ReplaceAll(value.detail, key),
            asked := ReplaceAll(value.asked, key),
            got := ReplaceAll(value.got, key),
            gotHeaders := clean);
        }
        RedactedMore(old(value), keys[..n], before, key, value);
      }
      assert keys[..|keys|] == keys;
    }
  }

  method RedactHeaders(h: map<string, string>, key: string) returns (clean: map<string, string>)
    requires key != ""
    ensures HeadersRedacted(h, key, clean)
  {
    clean := map[];
    var left := h;
    while left != map[]
      invariant forall n :: n in left ==> n in h && left[n] == h[n]
      invariant forall n :: n in h && n !in left ==> ReplaceAll(n, key) in clean
      invariant forall n :: n in clean ==> CameFrom(h, key, n, clean[n])
      decreases |left|
    {
      assert left.Keys != {};
      var k :| k in left;
      var name, value := ReplaceAll(k, key), ReplaceAll(h[k], key);
      assert CameFrom(h, key, name, value);
      clean := clean[name := value];
      left := left - {k};
    }
  }

  // ---- what redaction of a finding promises ------------------------------------------------------

  /** The key stands in none of the texts a reply could have put there. */
  ghost predicate Clean(f: Finding, key: string) {
    && !Occurs(key, f.detail) && !Occurs(key, f.asked) && !Occurs(key, f.got)
    && forall n :: n in f.gotHeaders ==> !Occurs(key, n) && !Occurs(key, f.gotHeaders[n])
  }

  lemma CleanAfter(f: Finding, key: string, g: Finding, k: string)
    requires Safe(k) && RedactedOnce(f, key, g) && (k == key || Clean(f, k))
    ensures Clean(g, k)
  {
    if key != "" {
      NoneIsLeft(k, f.detail, key);
      NoneIsLeft(k, f.asked, key);
      NoneIsLeft(k, f.got, key);
      forall n | n in g.gotHeaders ensures !Occurs(k, n) && !Occurs(k, g.gotHeaders[n]) {
        assert CameFrom(f.gotHeaders, key, n, g.gotHeaders[n]);
        var o :| o in f.gotHeaders && ReplaceAll(o, key) == n && ReplaceAll(f.gotHeaders[o], key) == g.gotHeaders[n];
        NoneIsLeft(k, o, key);
        NoneIsLeft(k, f.gotHeaders[o], key);
      }
    }
  }

  lemma {:induction false} StaysClean(f: Finding, keys: seq<string>, g: Finding, k: string)
    requires Safe(k) && Redacted(f, keys, g) && (k in keys || Clean(f, k))
    ensures Clean(g, k)
    decreases |keys|
  {
    if keys != [] {
      var m :| RedactedOnce(f, keys[0], m) && Redacted(m, keys[1..], g);
      if k == keys[0] || Clean(f, k) {
        CleanAfter(f, keys[0], m, k);
      }
      StaysClean(m, keys[1..], g, k);
    }
  }

  /** However many keys are redacted, and in whatever order, no safe one is left anywhere. */
  lemma RedactionIsComplete(f: Finding, keys: seq<string>, g: Finding)
    requires Redacted(f, keys, g)
    ensures forall k :: k in keys && Safe(k) ==> Clean(g, k)
  {
    forall k | k in keys && Safe(k) ensures Clean(g, k) {
      StaysClean(f, keys, g, k);
    }
  }

  lemma CleanChangesNothing(f: Finding, key: string, g: Finding)
    requires RedactedOnce(f, key, g) && (key == "" || Clean(f, key))
    ensures g == f
  {
    if key != "" {
      AbsentChangesNothing(f.detail, key);
      AbsentChangesNothing(f.asked, key);
      AbsentChangesNothing(f.got, key);
      forall n | n in f.gotHeaders ensures ReplaceAll(n, key) == n && ReplaceAll(f.gotHeaders[n], key) == f.gotHeaders[n] {
        AbsentChangesNothing(n, key);
        AbsentChangesNothing(f.gotHeaders[n], key);
      }
      forall n | n in g.gotHeaders ensures n in f.gotHeaders && g.gotHeaders[n] == f.gotHeaders[n] {
        assert CameFrom(f.gotHeaders, key, n, g.gotHeaders[n]);
      }
      assert g.gotHeaders == f.gotHeaders;
    }
  }

  /** Keys that are absent, or empty, change nothing. */
  lemma {:induction false} AbsentKeysChangeNothing(f: Finding, keys: seq<string>, g: Finding)
    requires Redacted(f, keys, g) && forall k :: k in keys ==> k == "" || Clean(f, k)
    ensures g == f
    decreases |keys|
  {
    if keys != [] {
      var m :| RedactedOnce(f, keys[0], m) && Redacted(m, keys[1..], g);
      CleanChangesNothing(f, keys[0], m);
      AbsentKeysChangeNothing(m, keys[1..], g);
    }
  }

  /** Redacting twice is redacting once. */
  lemma RedactionIsIdempotent(f: Finding, keys: seq<string>, g: Finding, h: Finding)
    requires Redacted(f, keys, g) && Redacted(g, keys, h)
    requires forall k :: k in keys ==> k == "" || Safe(k)
    ensures h == g
  {
    RedactionIsComplete(f, keys, g);
    AbsentKeysChangeNothing(g, keys, h);
  }

  /** What a reply cannot have put there stays as it was. */
  lemma {:induction false} RedactionKeepsTheRest(f: Finding, keys: seq<string>, g: Finding)
    requires Redacted(f, keys, g)
    ensures g == f.(detail := g.detail, asked := g.asked, got := g.got, gotHeaders := g.gotHeaders)
    decreases |keys|
  {
    if keys != [] {
      var m :| RedactedOnce(f, keys[0], m) && Redacted(m, keys[1..], g);
      RedactionKeepsTheRest(m, keys[1..], g);
    }
  }

  // ---- every text a finding carries --------------------------------------------------------------

  /** The key stands in none of the texts that redaction leaves alone: they come from the scenario. */
  ghost predicate FreeOf(f: Finding, key: string) {
    && !Occurs(key, f.scenario) && !Occurs(key, f.step)
    && !Occurs(key, f.eventSource) && !Occurs(key, f.eventType) && !Occurs(key, f.kind)
    && HeaderFreeOf(f.expectHeader, key)
  }

  ghost predicate HeaderFreeOf(h: map<string, string>, key: string) {
    forall n :: n in h ==> !Occurs(key, n) && !Occurs(key, h[n])
  }

  /** It stands in no text of the finding at all. */
  ghost predicate Secretless(f: Finding, key: string) {
    Clean(f, key) && FreeOf(f, key)
  }

  /**
   After redaction of a safe key no text of the finding holds it, if and only if, before it, none of the
   scenario's own texts did: the names, the event, the kind and the expected headers.
   */
  lemma SecretlessIff(f: Finding, keys: seq<string>, g: Finding, k: string)
    requires Redacted(f, keys, g) && k in keys && Safe(k)
    ensures Secretless(g, k) <==> FreeOf(f, k)
  {
    RedactionIsComplete(f, keys, g);
    RedactionKeepsTheRest(f, keys, g);
  }

  /** A finding whose expected header is the key. */
  function Expecting(k: string): Finding {
    Finding("s", "t", 1, 200, map["x-expected" := k], 0, map[], "", "", "", "", "", "")
  }

  /** It keeps the key through redaction, which leaves it as it is. */
  lemma ExpectedHeaderKeepsKey(k: string)
    requires Safe(k)
    ensures var f := Expecting(k); Redacted(f, [k], f) && forall g :: Redacted(f, [k], g) ==> g == f && !Secretless(g, k)
  {
    var f := Expecting(k);
    assert OccursAt(k, k, 0) && "x-expected" in f.expectHeader;
    forall g | Redacted(f, [k], g) ensures g == f {
      assert forall i: nat :: !OccursAt(k, "", i);
      AbsentKeysChangeNothing(f, [k], g);
    }
    assert RedactedOnce(f, k, f);
    assert [k][1..] == [] && Redacted(f, [], f);
  }
}
