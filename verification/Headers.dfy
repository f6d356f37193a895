/** Names of headers and pieces of texts, as a reader compares them: what the engine's own searches come to. */
module Headers {
  import opened Redact
  import opened Runner

  // ---- names, whatever their case ---------------------------------------------------------------

  predicate Upper(c: char) {
    'A' <= c <= 'Z'
  }

  predicate SameLetter(a: char, b: char) {
    a == b || (Upper(a) && b as int == a as int + 32) || (Upper(b) && a as int == b as int + 32)
  }

  /** Two names that differ in case at most. */
  predicate SameName(a: string, b: string) {
    |a| == |b| && forall k :: 0 <= k < |a| ==> SameLetter(a[k], b[k])
  }

  predicate LowerCase(s: string) {
    forall k :: 0 <= k < |s| ==> !Upper(s[k])
  }

  lemma {:induction false} LowerIs(s: string)
    ensures LowerCase(Lower(s)) && SameName(s, Lower(s))
  {
    if s != "" {
      var t := Lower(s[1..]);
      LowerIs(s[1..]);
      assert Lower(s) == [LowerChar(s[0])] + t;
      forall k | 0 <= k < |s| ensures !Upper(Lower(s)[k]) && SameLetter(s[k], Lower(s)[k]) {
        if k > 0 {
          assert s[k] == s[1..][k - 1] && Lower(s)[k] == t[k - 1];
        }
      }
    }
  }

  /** There is one way to write a name in lower case. */
  lemma OneLowerCase(s: string, t: string)
    requires LowerCase(t) && SameName(s, t)
    ensures t == Lower(s)
  {
    LowerIs(s);
    assert forall k :: 0 <= k < |s| ==> SameLetter(s[k], t[k]) && SameLetter(s[k], Lower(s)[k]);
  }

  lemma SameNames(a: string, b: string)
    ensures SameName(a, b) <==> Lower(a) == Lower(b)
  {
    LowerIs(a);
    LowerIs(b);
    if SameName(a, b) {
      forall k | 0 <= k < |a| ensures SameLetter(a[k], Lower(b)[k]) {
        assert SameLetter(a[k], b[k]) && SameLetter(b[k], Lower(b)[k]);
      }
      OneLowerCase(a, Lower(b));
    }
    if Lower(a) == Lower(b) {
      forall k | 0 <= k < |a| ensures SameLetter(a[k], b[k]) {
        assert SameLetter(a[k], Lower(a)[k]) && SameLetter(b[k], Lower(b)[k]);
      }
    }
  }

  lemma SameTail(p: string, a: string, b: string)
    requires SameName(a, b)
    ensures SameName(p + a, p + b)
  {
  }

  /** The value of a header, whatever the case of the name asked for; no value is an empty one. */
  ghost predicate HeaderIs(h: map<string, string>, name: string, value: string) {
    || (exists k :: k in h && LowerCase(k) && SameName(name, k) && h[k] == value)
    || (value == "" && forall k :: k in h && LowerCase(k) ==> !SameName(name, k))
  }

  lemma GetIs(h: map<string, string>, name: string, value: string)
    ensures Get(h, name) == value <==> HeaderIs(h, name, value)
  {
    LowerIs(name);
    forall k | LowerCase(k) && SameName(name, k) ensures k == Lower(name) {
      OneLowerCase(name, k);
    }
  }

  // ---- pieces -----------------------------------------------------------------------------------

  /** The part stands somewhere in the text. */
  ghost predicate Within(part: string, s: string) {
    exists before, after :: s == before + part + after
  }

  lemma ContainsIff(s: string, part: string)
    ensures Contains(s, part) <==> Within(part, s)
  {
    if Contains(s, part) {
      var i :| 0 <= i <= |s| && OccursAt(part, s, i);
      assert s == s[..i] + part + s[i + |part|..];
    }
    if Within(part, s) {
      var before, after :| s == before + part + after;
      assert s[|before|..|before| + |part|] == part;
      assert OccursAt(part, s, |before|);
    }
  }
}
